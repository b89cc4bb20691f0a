/**
 The fixed-window counter in front of registration and login: INCR, and EXPIRE on the first
 count, taken as one step.
 */
module AuthRateLimit {
  import opened Common

  const WINDOW: nat := 60 * SECOND

  datatype Counter = Counter(count: nat, deadline: Instant)

  function Increment(c: Option<Counter>, now: Instant): Counter {
    if c.Some? && Alive(c.value.deadline, now) then c.value.(count := c.value.count + 1)
    else Counter(1, now + WINDOW)
  }

  /** The stored counter after attempts on one key at the given instants. */
  function StateAfter(h: seq<Instant>): Option<Counter> {
    if |h| == 0 then None else Some(Increment(StateAfter(h[..|h| - 1]), h[|h| - 1]))
  }

  /** Attempt `i` does not exceed the limit of its key. */
  predicate Passes(h: seq<Instant>, i: nat, limit: int)
    requires i < |h|
  {
    Increment(StateAfter(h[..i]), h[i]).count <= limit
  }

  function PassedIn(h: seq<Instant>, limit: int, lo: int, hi: int): nat {
    if |h| == 0 then 0
    else
      PassedIn(h[..|h| - 1], limit, lo, hi)
      + (if Passes(h, |h| - 1, limit) && lo <= h[|h| - 1] < hi then 1 else 0)
  }

  ghost predicate InOrder(h: seq<Instant>) {
    forall i, j :: 0 <= i < j < |h| ==> h[i] <= h[j]
  }

  lemma {:induction false} NonePassedBefore(h: seq<Instant>, limit: int, lo: int, hi: int)
    requires forall i :: 0 <= i < |h| ==> h[i] < lo
    ensures PassedIn(h, limit, lo, hi) == 0
  {
    if h != [] {
      NonePassedBefore(h[..|h| - 1], limit, lo, hi);
    }
  }

  function Min(a: int, b: int): int { if a < b then a else b }

  /**
   What can have passed in the interval, by where the running counter window starts: the attempt
   that opened a window starting before the interval lies outside of it.
   */
  ghost predicate Bounded(c: Option<Counter>, passed: nat, limit: int, lo: int, hi: int) {
    if c.None? then passed == 0
    else
      var start := c.value.deadline - WINDOW;
      c.value.count >= 1 &&
      if start < lo then passed <= Max(Min(c.value.count, limit) - 1, 0)
      else if start < hi then passed <= Max(limit - 1, 0) + Max(Min(c.value.count, limit), 0)
      else passed <= Max(2 * limit - 1, 0)
  }

  lemma {:induction false} BoundedAlways(h: seq<Instant>, limit: int, lo: int)
    requires InOrder(h)
    ensures Bounded(StateAfter(h), PassedIn(h, limit, lo, lo + WINDOW), limit, lo, lo + WINDOW)
    ensures StateAfter(h).Some? ==> StateAfter(h).value.deadline <= h[|h| - 1] + WINDOW
  {
    if h != [] {
      var n := |h| - 1;
      var p := h[..n];
      BoundedAlways(p, limit, lo);
      assert p != [] ==> p[n - 1] <= h[n];
      if h[n] < lo {
        NonePassedBefore(h, limit, lo, lo + WINDOW);
      }
    }
  }

  /**
   Over every run, fewer than 2 * limit attempts on one key pass in any half-open interval of 60
   seconds; none does when the limit is zero or less.
   */
  lemma FixedWindowBound(h: seq<Instant>, limit: int, lo: int)
    requires InOrder(h)
    ensures PassedIn(h, limit, lo, lo + 60 * SECOND) <= Max(2 * limit - 1, 0)
  {
    BoundedAlways(h, limit, lo);
  }

  // ---------------------------------------------------------------- the bound is reached

  /** `g` is `h` with one more attempt, at `t`. */
  ghost predicate OneMore(g: seq<Instant>, h: seq<Instant>, t: Instant) {
    |g| == |h| + 1 && g[..|g| - 1] == h && g[|g| - 1] == t
  }

  /** The attempts `h` followed by n attempts at `t`. */
  function Burst(h: seq<Instant>, t: Instant, n: nat): seq<Instant> {
    seq(|h| + n, i requires 0 <= i < |h| + n => if i < |h| then h[i] else t)
  }

  lemma BurstGrows(h: seq<Instant>, t: Instant, n: nat)
    ensures Burst(h, t, 0) == h && OneMore(Burst(h, t, n + 1), Burst(h, t, n), t)
  {
  }

  /** An attempt inside the running counter window. */
  lemma StaysInWindow(g: seq<Instant>, h: seq<Instant>, t: Instant, limit: int, lo: int, hi: int)
    requires OneMore(g, h, t) && lo <= t < hi
    requires StateAfter(h).Some? && t < StateAfter(h).value.deadline && StateAfter(h).value.count < limit
    ensures StateAfter(g) == Some(Counter(StateAfter(h).value.count + 1, StateAfter(h).value.deadline))
    ensures PassedIn(g, limit, lo, hi) == PassedIn(h, limit, lo, hi) + 1
  {
  }

  /** An attempt after the counter has expired opens the next counter window. */
  lemma OpensWindow(g: seq<Instant>, h: seq<Instant>, t: Instant, limit: int, lo: int, hi: int)
    requires OneMore(g, h, t) && limit >= 1
    requires StateAfter(h).Some? ==> StateAfter(h).value.deadline <= t
    ensures StateAfter(g) == Some(Counter(1, t + WINDOW))
    ensures PassedIn(g, limit, lo, hi) == PassedIn(h, limit, lo, hi) + (if lo <= t < hi then 1 else 0)
  {
  }

  lemma {:induction false} BurstPasses(h: seq<Instant>, t: Instant, n: nat, limit: int, lo: int, hi: int)
    requires StateAfter(h).Some? && t < StateAfter(h).value.deadline && StateAfter(h).value.count + n <= limit
             && lo <= t < hi
    ensures StateAfter(Burst(h, t, n)) == Some(Counter(StateAfter(h).value.count + n, StateAfter(h).value.deadline))
    ensures PassedIn(Burst(h, t, n), limit, lo, hi) == PassedIn(h, limit, lo, hi) + n
  {
    if n == 0 {
      BurstGrows(h, t, 0);
    } else {
      BurstPasses(h, t, n - 1, limit, lo, hi);
      BurstGrows(h, t, n - 1);
      StaysInWindow(Burst(h, t, n), Burst(h, t, n - 1), t, limit, lo, hi);
    }
  }

  /** Every attempt of `h` is at or before `t`, in order. */
  ghost predicate InOrderUntil(h: seq<Instant>, t: Instant) {
    InOrder(h) && forall i :: 0 <= i < |h| ==> h[i] <= t
  }

  lemma BurstInOrder(h: seq<Instant>, u: Instant, t: Instant, n: nat)
    requires InOrderUntil(h, u) && u <= t
    ensures InOrderUntil(Burst(h, t, n), t)
  {
  }

  /** The attempt that opens a counter window, and n more at `t` within it. */
  lemma OpenAndFill(h: seq<Instant>, first: Instant, t: Instant, n: nat, limit: int, lo: int, hi: int)
    returns (g: seq<Instant>)
    requires StateAfter(h).Some? ==> StateAfter(h).value.deadline <= first
    requires InOrderUntil(h, first) && first <= t < first + WINDOW
    requires n + 1 <= limit && lo <= t < hi
    ensures InOrderUntil(g, t)
    ensures StateAfter(g) == Some(Counter(n + 1, first + WINDOW))
    ensures PassedIn(g, limit, lo, hi) == PassedIn(h, limit, lo, hi) + n + (if lo <= first < hi then 1 else 0)
  {
    var o := Burst(h, first, 1);
    BurstInOrder(h, first, first, 1);
    BurstInOrder(o, first, t, n);
    BurstGrows(h, first, 0);
    OpensWindow(o, h, first, limit, lo, hi);
    BurstPasses(o, t, n, limit, lo, hi);
    g := Burst(o, t, n);
  }

  /**
   From any instant on: one attempt opens a counter window, as late as possible in it the rest of
   the limit passes, and when the window ends the whole limit passes again.
   */
  lemma FixedWindowBoundIsTight(limit: nat, open: Instant) returns (h: seq<Instant>)
    requires limit >= 1
    ensures InOrder(h)
    ensures PassedIn(h, limit, open + 60 * SECOND - 1, open + 120 * SECOND - 1) == 2 * limit - 1
  {
    var lo, hi := open + WINDOW - 1, open + 2 * WINDOW - 1;
    var b := OpenAndFill([], open, lo, limit - 1, limit, lo, hi);
    h := OpenAndFill(b, open + WINDOW, open + WINDOW, limit - 1, limit, lo, hi);
  }

  // ---------------------------------------------------------------- the check itself

  function Attempts<K>(m: map<K, seq<Instant>>, key: K): seq<Instant> {
    if key in m then m[key] else []
  }

  /** The key was counted once more, at `now`. */
  ghost predicate CountedOnce<K>(before: map<K, seq<Instant>>, after: map<K, seq<Instant>>, key: K, now: Instant) {
    Attempts(after, key) == Attempts(before, key) + [now]
  }

  ghost predicate Untouched<K>(before: map<K, seq<Instant>>, after: map<K, seq<Instant>>, key: K) {
    Attempts(after, key) == Attempts(before, key)
  }

  /** The latest attempt on the key does not exceed the limit. */
  ghost predicate LatestPasses<K>(m: map<K, seq<Instant>>, key: K, limit: int) {
    Attempts(m, key) != [] && Passes(Attempts(m, key), |Attempts(m, key)| - 1, limit)
  }

  /** Exactly the first n keys were counted, each once. */
  ghost predicate Swept<K(!new)>(before: map<K, seq<Instant>>, after: map<K, seq<Instant>>, keys: seq<K>, n: nat,
                          now: Instant) {
    && n <= |keys|
    && (forall i {:trigger CountedOnce(before, after, keys[i], now)} :: 0 <= i < n ==>
          CountedOnce(before, after, keys[i], now))
    && (forall key :: key !in keys[..n] ==> Untouched(before, after, key))
  }

  ghost predicate Distinct<K>(keys: seq<K>) {
    forall i, j :: 0 <= i < j < |keys| ==> keys[i] != keys[j]
  }

  ghost predicate PassUpTo<K>(m: map<K, seq<Instant>>, keys: seq<K>, n: nat, limit: int) {
    n <= |keys| && forall i {:trigger LatestPasses(m, keys[i], limit)} :: 0 <= i < n ==> LatestPasses(m, keys[i], limit)
  }

  /** A sweep over the keys is under way: the first n are counted and all of them pass. */
  ghost predicate Sweeping<K(!new)>(start: map<K, seq<Instant>>, m: map<K, seq<Instant>>, keys: seq<K>, n: nat,
                             now: Instant, limit: int) {
    Swept(start, m, keys, n, now) && PassUpTo(m, keys, n, limit)
  }

  class AuthLimiter<K(==,!new)> {
    const limit: int
    var counters: map<K, Counter>
    /** Instants of all attempts that reached the counter of a key. */
    ghost var history: map<K, seq<Instant>>

    ghost predicate Valid()
      reads this
    {
      forall key :: (if key in counters then Some(counters[key]) else None) == StateAfter(Attempts(history, key))
    }

    constructor (limit: int)
      ensures Valid() && this.limit == limit && history == map[]
    {
      this.limit, counters, history := limit, map[], map[];
    }

    /** INCR and EXPIRE on one key. */
    method Count(key: K, now: Instant) returns (count: nat)
      requires Valid()
      modifies this
      ensures Valid() && history == old(history)[key := Attempts(old(history), key) + [now]]
      ensures count <= limit <==> LatestPasses(history, key, limit)
    {
      ghost var h := Attempts(history, key);
      assert (h + [now])[..|h|] == h;
      assert (if key in counters then Some(counters[key]) else None) == StateAfter(h);
      var deadline: Instant := 0;
      count := 1;
      if key in counters && Alive(counters[key].deadline, now) {
        count := counters[key].count + 1;
        deadline := counters[key].deadline;
      }
      if count == 1 {
        deadline := now + WINDOW;
      }
      StoredCountPositive(h);
      counters := counters[key := Counter(count, deadline)];
      history := history[key := h + [now]];
      assert Some(counters[key]) == StateAfter(h + [now]);
      assert forall k :: k != key ==> Attempts(history, k) == Attempts(old(history), k);
    }

    /** The next key of a sweep is counted. */
    method CountNext(ghost start: map<K, seq<Instant>>, keys: seq<K>, n: nat, now: Instant) returns (count: nat)
      requires Valid() && Distinct(keys) && n < |keys| && Sweeping(start, history, keys, n, now, limit)
      modifies this
      ensures Valid() && Swept(start, history, keys, n + 1, now) && PassUpTo(history, keys, n, limit)
      ensures count <= limit <==> LatestPasses(history, keys[n], limit)
      ensures count <= limit ==> Sweeping(start, history, keys, n + 1, now, limit)
    {
      ghost var before := history;
      count := Count(keys[n], now);
      SweepStep(start, before, history, keys, n, now, limit);
    }

    /**
     The keys are counted in turn until one exceeds the limit; without Redis nothing is checked.
     `reached` is the number of keys counted.
     */
    method Check(keys: seq<K>, now: Instant, connected: bool) returns (passed: bool, ghost reached: nat)
      requires Valid() && Distinct(keys)
      modifies this
      ensures Valid() && Swept(old(history), history, keys, reached, now)
      ensures passed ==> reached == (if connected then |keys| else 0) && PassUpTo(history, keys, reached, limit)
      ensures !passed ==>
                && reached > 0 && PassUpTo(history, keys, reached - 1, limit)
                && !LatestPasses(history, keys[reached - 1], limit)
    {
      reached := 0;
      ghost var start := history;
      if !connected {
        return true, reached;
      }
      for n := 0 to |keys|
        invariant Valid() && reached == n && Sweeping(start, history, keys, n, now, limit)
      {
        var count := CountNext(start, keys, n, now);
        reached := n + 1;
        if count > limit {
          return false, reached;
        }
      }
      return true, reached;
    }
  }

  lemma SweepStep<K(!new)>(start: map<K, seq<Instant>>, before: map<K, seq<Instant>>, after: map<K, seq<Instant>>,
                    keys: seq<K>, n: nat, now: Instant, limit: int)
    requires n < |keys| && Distinct(keys)
    requires Swept(start, before, keys, n, now) && PassUpTo(before, keys, n, limit)
    requires after == before[keys[n] := Attempts(before, keys[n]) + [now]]
    ensures Swept(start, after, keys, n + 1, now) && PassUpTo(after, keys, n, limit)
    ensures LatestPasses(after, keys[n], limit) ==> PassUpTo(after, keys, n + 1, limit)
  {
    assert keys[n] !in keys[..n];
    assert keys[..n + 1] == keys[..n] + [keys[n]];
    forall i | 0 <= i < n
      ensures CountedOnce(start, after, keys[i], now) && LatestPasses(after, keys[i], limit)
    {
      assert CountedOnce(start, before, keys[i], now) && LatestPasses(before, keys[i], limit);
      assert Attempts(after, keys[i]) == Attempts(before, keys[i]);
    }
    assert Untouched(start, before, keys[n]);
    forall key | key !in keys[..n + 1]
      ensures Untouched(start, after, key)
    {
      assert Untouched(start, before, key);
    }
  }

  lemma StoredCountPositive(h: seq<Instant>)
    ensures StateAfter(h).Some? ==> StateAfter(h).value.count >= 1
  {
  }
}
