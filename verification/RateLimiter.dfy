/**
 The sliding-window rate limiter: a Redis sorted set per key that is pruned, counted,
 extended and re-expired on every call.  Its answers are shown to be those of the complete,
 never pruned history of calls, also when the callers' clocks lag behind the server's.
 */
module RateLimiter {
  import opened Common

  /** Length of the window, and also the time to live given to the key. */
  const WINDOW: nat := 60 * SECOND

  /** The sorted set of one key: the scores of its members, each with a member name of its own. */
  datatype Window = Window(scores: seq<Instant>, deadline: Instant)

  /** One call: the caller's timestamp, the server's clock when it executes, the limit in force. */
  datatype Attempt = Attempt(stamp: Instant, server: Instant, limit: int)

  /** ZREMRANGEBYSCORE key 0 cutoff. */
  function Prune(scores: seq<Instant>, cutoff: int): seq<Instant> {
    if scores == [] then []
    else
      var rest := Prune(scores[1..], cutoff);
      if 0 <= scores[0] <= cutoff then rest else [scores[0]] + rest
  }

  /** What is left of a key's set when a call at `server` looks at it. */
  function LiveScores(w: Option<Window>, server: Instant): seq<Instant> {
    if w.Some? && Alive(w.value.deadline, server) then w.value.scores else []
  }

  /** The scores the call counts. */
  function Kept(w: Option<Window>, a: Attempt): seq<Instant> {
    Prune(LiveScores(w, a.server), a.stamp - WINDOW)
  }

  /** The set a call leaves behind; a limit of zero or less is answered before Redis is reached. */
  function Touch(w: Option<Window>, a: Attempt): Option<Window> {
    if a.limit <= 0 then w
    else Some(Window(Kept(w, a) + [a.stamp], a.server + WINDOW))
  }

  function Admits(w: Option<Window>, a: Attempt): bool {
    a.limit > 0 && |Kept(w, a)| < a.limit
  }

  /** The stored set after a whole history of calls on one key. */
  function StateAfter(h: seq<Attempt>): Option<Window> {
    if h == [] then None else Touch(StateAfter(h[..|h| - 1]), h[|h| - 1])
  }

  /** The answer given to call `i` of a history. */
  predicate Allowed(h: seq<Attempt>, i: nat)
    requires i < |h|
  {
    Admits(StateAfter(h[..i]), h[i])
  }

  // ---------------------------------------------------------------- the full-history reading

  predicate In(t: int, lo: int, hi: int) { lo <= t < hi }

  /** How many calls of the history, allowed or denied, carry a timestamp in [lo, hi). */
  function CountIn(h: seq<Attempt>, lo: int, hi: int): nat {
    if h == [] then 0
    else
      var a := h[|h| - 1];
      CountIn(h[..|h| - 1], lo, hi) + (if a.limit > 0 && In(a.stamp, lo, hi) then 1 else 0)
  }

  /** How many calls of the history were allowed with a timestamp in [lo, hi). */
  function AllowedIn(h: seq<Attempt>, lo: int, hi: int): nat {
    if h == [] then 0
    else
      AllowedIn(h[..|h| - 1], lo, hi)
      + (if Allowed(h, |h| - 1) && In(h[|h| - 1].stamp, lo, hi) then 1 else 0)
  }

  /** The server executes calls in clock order; a caller's timestamp lags it by at most `skew`. */
  ghost predicate Skewed(h: seq<Attempt>, skew: nat) {
    && (forall i :: 0 <= i < |h| ==> h[i].stamp <= h[i].server <= h[i].stamp + skew)
    && (forall i, j :: 0 <= i < j < |h| ==> h[i].server <= h[j].server)
  }

  ghost predicate OneClock(h: seq<Attempt>) {
    Skewed(h, 0)
  }

  // ---------------------------------------------------------------- pruning

  function ScoresIn(scores: seq<Instant>, lo: int, hi: int): nat {
    if scores == [] then 0
    else ScoresIn(scores[1..], lo, hi) + (if In(scores[0], lo, hi) then 1 else 0)
  }

  lemma {:induction false} ScoresInAppend(scores: seq<Instant>, s: Instant, lo: int, hi: int)
    ensures ScoresIn(scores + [s], lo, hi) == ScoresIn(scores, lo, hi) + (if In(s, lo, hi) then 1 else 0)
  {
    if scores == [] {
      assert [s][1..] == [];
    } else {
      ScoresInAppend(scores[1..], s, lo, hi);
      assert (scores + [s])[1..] == scores[1..] + [s];
    }
  }

  /** Pruning below the window of interest does not change what is counted in it. */
  lemma {:induction false} PruneKeepsWindow(scores: seq<Instant>, cutoff: int, lo: int, hi: int)
    requires cutoff < lo
    ensures ScoresIn(Prune(scores, cutoff), lo, hi) == ScoresIn(scores, lo, hi)
  {
    if scores != [] {
      PruneKeepsWindow(scores[1..], cutoff, lo, hi);
      var rest := Prune(scores[1..], cutoff);
      assert ([scores[0]] + rest)[1..] == rest;
    }
  }

  lemma {:induction false} PruneMembers(scores: seq<Instant>, cutoff: int)
    ensures forall s :: s in Prune(scores, cutoff) ==> s in scores && cutoff < s
  {
    if scores != [] {
      PruneMembers(scores[1..], cutoff);
    }
  }

  lemma {:induction false} ScoresInBounds(scores: seq<Instant>, lo: int, hi: int)
    ensures ScoresIn(scores, lo, hi) <= |scores|
    ensures (forall s :: s in scores ==> In(s, lo, hi)) ==> ScoresIn(scores, lo, hi) == |scores|
  {
    if scores != [] {
      ScoresInBounds(scores[1..], lo, hi);
      assert forall s :: s in scores[1..] ==> s in scores;
      assert scores[0] in scores;
    }
  }

  // ---------------------------------------------------------------- survival

  /** Every stored score is the timestamp of a recorded call, and none outlives its key. */
  lemma {:induction false} StoredScores(h: seq<Attempt>)
    ensures StateAfter(h).Some? ==> forall s :: s in StateAfter(h).value.scores ==>
              exists i :: 0 <= i < |h| && h[i].limit > 0 && h[i].stamp == s
  {
    if h != [] {
      var n := |h| - 1;
      var p := h[..n];
      StoredScores(p);
      var w := StateAfter(p);
      PruneMembers(LiveScores(w, h[n].server), h[n].stamp - WINDOW);
      if StateAfter(h).Some? {
        forall s | s in StateAfter(h).value.scores
          ensures exists i :: 0 <= i < |h| && h[i].limit > 0 && h[i].stamp == s
        {
          if h[n].limit > 0 && s == h[n].stamp {
          } else {
            assert w.Some? && s in w.value.scores;
            var i :| 0 <= i < |p| && p[i].limit > 0 && p[i].stamp == s;
            assert h[i] == p[i];
          }
        }
      }
    }
  }

  /** The deadline of the stored key is a window after the last recorded call. */
  lemma {:induction false} StoredDeadline(h: seq<Attempt>, skew: nat, i: nat)
    requires Skewed(h, skew) && i < |h| && h[i].limit > 0
    ensures StateAfter(h).Some? && h[i].server + WINDOW <= StateAfter(h).value.deadline
  {
    var n := |h| - 1;
    if i < n && h[n].limit <= 0 {
      StoredDeadline(h[..n], skew, i);
      assert h[..n][i] == h[i];
    }
  }

  lemma {:induction false} CountWitness(h: seq<Attempt>, lo: int, hi: int) returns (i: nat)
    requires CountIn(h, lo, hi) > 0
    ensures i < |h| && h[i].limit > 0 && In(h[i].stamp, lo, hi)
  {
    var n := |h| - 1;
    if h[n].limit > 0 && In(h[n].stamp, lo, hi) {
      i := n;
    } else {
      i := CountWitness(h[..n], lo, hi);
    }
  }

  /** The key's deadline is a window after some call of its history. */
  lemma {:induction false} DeadlineOfSome(h: seq<Attempt>)
    ensures StateAfter(h).Some? ==> exists i :: 0 <= i < |h| && StateAfter(h).value.deadline == h[i].server + WINDOW
  {
    if h != [] {
      var n := |h| - 1;
      if h[n].limit <= 0 {
        DeadlineOfSome(h[..n]);
        if StateAfter(h).Some? {
          var i :| 0 <= i < n && StateAfter(h[..n]).value.deadline == h[..n][i].server + WINDOW;
          assert h[i] == h[..n][i];
        }
      } else {
        assert StateAfter(h).value.deadline == h[n].server + WINDOW;
      }
    }
  }

  /** A window after the last call nothing is left of it. */
  lemma NothingLive(h: seq<Attempt>, now: Instant)
    requires forall i :: 0 <= i < |h| ==> h[i].server + WINDOW <= now
    ensures LiveScores(StateAfter(h), now) == []
  {
    DeadlineOfSome(h);
  }

  lemma {:induction false} CountWider(h: seq<Attempt>, lo: int, hi: int, lower: int, higher: int)
    requires lower <= lo && hi <= higher
    ensures CountIn(h, lo, hi) <= CountIn(h, lower, higher)
  {
    if h != [] {
      CountWider(h[..|h| - 1], lo, hi, lower, higher);
    }
  }

  lemma CountSnoc(h: seq<Attempt>, a: Attempt, lo: int, hi: int)
    ensures CountIn(h + [a], lo, hi) == CountIn(h, lo, hi) + (if a.limit > 0 && In(a.stamp, lo, hi) then 1 else 0)
  {
    assert (h + [a])[..|h|] == h;
  }

  /** Nothing of a window that a call with server time up to `hi - 1 + skew` looks at was lost. */
  lemma {:induction false} NothingLost(h: seq<Attempt>, skew: nat, lo: int, hi: int)
    requires Skewed(h, skew) && hi - lo <= WINDOW - skew
    requires forall i :: 0 <= i < |h| ==> h[i].server <= hi - 1 + skew
    ensures StateAfter(h).None? ==> CountIn(h, lo, hi) == 0
    ensures StateAfter(h).Some? ==> ScoresIn(StateAfter(h).value.scores, lo, hi) == CountIn(h, lo, hi)
  {
    if h != [] {
      var n := |h| - 1;
      var p, b := h[..n], h[n];
      assert p + [b] == h;
      NothingLost(p, skew, lo, hi);
      if b.limit > 0 {
        KeptKeepsWindow(p, b, skew, lo, hi);
        ScoresInAppend(Kept(StateAfter(p), b), b.stamp, lo, hi);
      }
    }
  }

  lemma {:induction false} KeptKeepsWindow(p: seq<Attempt>, b: Attempt, skew: nat, lo: int, hi: int)
    requires Skewed(p + [b], skew) && hi - lo <= WINDOW - skew && b.server <= hi - 1 + skew
    requires StateAfter(p).None? ==> CountIn(p, lo, hi) == 0
    requires StateAfter(p).Some? ==> ScoresIn(StateAfter(p).value.scores, lo, hi) == CountIn(p, lo, hi)
    ensures ScoresIn(Kept(StateAfter(p), b), lo, hi) == CountIn(p, lo, hi)
  {
    if CountIn(p, lo, hi) > 0 {
      var i := CountWitness(p, lo, hi);
      var g := p + [b];
      assert forall k :: 0 <= k < |p| ==> g[k] == p[k];
      StoredDeadline(p, skew, i);
      assert g[i] == p[i] && g[|p|] == b;
    }
    assert ScoresIn(LiveScores(StateAfter(p), b.server), lo, hi) == CountIn(p, lo, hi);
    assert b == (p + [b])[|p|];
    PruneKeepsWindow(LiveScores(StateAfter(p), b.server), b.stamp - WINDOW, lo, hi);
  }

  // ---------------------------------------------------------------- the promises

  /**
   On one clock the pruned and expiring set answers as the full history does: a call is allowed
   exactly when fewer than `limit` earlier calls, denied ones included, fall in (now - 60 s, now].
   */
  lemma ExactRefinement(h: seq<Attempt>, b: Attempt)
    requires OneClock(h + [b])
    ensures Admits(StateAfter(h), b) <==> CountIn(h, b.stamp - 60 * SECOND + 1, b.stamp + 1) < b.limit
  {
    var lo, hi := b.stamp - WINDOW + 1, b.stamp + 1;
    var g := h + [b];
    assert g[|h|] == b;
    assert forall k :: 0 <= k < |h| ==> g[k] == h[k];
    NothingLost(h, 0, lo, hi);
    KeptKeepsWindow(h, b, 0, lo, hi);
    var kept := Kept(StateAfter(h), b);
    PruneMembers(LiveScores(StateAfter(h), b.server), b.stamp - WINDOW);
    StoredScores(h);
    assert forall s :: s in kept ==> In(s, lo, hi);
    ScoresInBounds(kept, lo, hi);
  }

  /** A call allowed inside a short enough window was preceded there by fewer than `limit` calls. */
  lemma AllowedSeesAll(h: seq<Attempt>, b: Attempt, skew: nat, lo: int, hi: int)
    requires Skewed(h + [b], skew) && hi - lo <= 60 * SECOND - skew
    requires In(b.stamp, lo, hi) && Admits(StateAfter(h), b)
    ensures CountIn(h, lo, hi) < b.limit
  {
    var g := h + [b];
    assert g[|h|] == b;
    assert forall k :: 0 <= k < |h| ==> g[k] == h[k];
    NothingLost(h, skew, lo, hi);
    KeptKeepsWindow(h, b, skew, lo, hi);
    ScoresInBounds(Kept(StateAfter(h), b), lo, hi);
  }

  lemma {:induction false} AllowedAtMostCounted(h: seq<Attempt>, lo: int, hi: int)
    ensures AllowedIn(h, lo, hi) <= CountIn(h, lo, hi)
  {
    if h != [] {
      AllowedAtMostCounted(h[..|h| - 1], lo, hi);
    }
  }

  /**
   At most `limit` calls are allowed with timestamps in any window of 60 s less the clock skew,
   over every history whose limits never exceed `limit`.
   */
  lemma {:induction false} AllowedBound(h: seq<Attempt>, skew: nat, lo: int, hi: int, limit: nat)
    requires Skewed(h, skew) && hi - lo <= 60 * SECOND - skew
    requires forall i :: 0 <= i < |h| ==> h[i].limit <= limit
    ensures AllowedIn(h, lo, hi) <= limit
  {
    if h != [] {
      var n := |h| - 1;
      var p := h[..n];
      if Allowed(h, n) && In(h[n].stamp, lo, hi) {
        assert p + [h[n]] == h;
        AllowedSeesAll(p, h[n], skew, lo, hi);
        AllowedAtMostCounted(p, lo, hi);
      } else {
        AllowedBound(p, skew, lo, hi, limit);
      }
    }
  }

  // ---------------------------------------------------------------- the bound is sharp

  /** `g` is `h` with one more call. */
  ghost predicate OneMore(g: seq<Attempt>, h: seq<Attempt>, a: Attempt) {
    |g| == |h| + 1 && g[..|g| - 1] == h && g[|g| - 1] == a
  }

  lemma AfterOneMore(g: seq<Attempt>, h: seq<Attempt>, a: Attempt, lo: int, hi: int)
    requires OneMore(g, h, a)
    ensures StateAfter(g) == Touch(StateAfter(h), a)
    ensures AllowedIn(g, lo, hi) ==
            AllowedIn(h, lo, hi) + (if Admits(StateAfter(h), a) && In(a.stamp, lo, hi) then 1 else 0)
  {
  }

  /** The history `h` and then n equal calls. */
  function Burst(h: seq<Attempt>, a: Attempt, n: nat): seq<Attempt> {
    seq(|h| + n, i requires 0 <= i < |h| + n => if i < |h| then h[i] else a)
  }

  lemma BurstGrows(h: seq<Attempt>, a: Attempt, n: nat)
    ensures Burst(h, a, 0) == h && OneMore(Burst(h, a, n + 1), Burst(h, a, n), a)
  {
  }

  lemma {:induction false} NothingToPrune(scores: seq<Instant>, cutoff: int)
    requires forall k :: 0 <= k < |scores| ==> cutoff < scores[k]
    ensures Prune(scores, cutoff) == scores
  {
    if scores != [] {
      NothingToPrune(scores[1..], cutoff);
    }
  }

  /** The state after n equal calls that found nothing in the window. */
  ghost predicate Holds(w: Option<Window>, a: Attempt, n: nat) {
    && w.Some? && w.value.deadline == a.server + WINDOW && |w.value.scores| == n
    && forall k :: 0 <= k < n ==> w.value.scores[k] == a.stamp
  }

  /** The first of the equal calls finds nothing, and each later one finds those before it. */
  lemma NextOfBurst(w: Option<Window>, a: Attempt, n: nat)
    requires a.limit > 0 && (if n == 0 then Kept(w, a) == [] else Holds(w, a, n))
    ensures |Kept(w, a)| == n && Holds(Touch(w, a), a, n + 1)
  {
    if n > 0 {
      NothingToPrune(w.value.scores, a.stamp - WINDOW);
    }
  }

  /** Up to `limit` equal calls that find nothing in the window are all allowed. */
  lemma {:induction false} BurstAllowed(h: seq<Attempt>, a: Attempt, n: nat, lo: int, hi: int)
    requires n <= a.limit && a.limit > 0 && Kept(StateAfter(h), a) == [] && In(a.stamp, lo, hi)
    ensures n > 0 ==> Holds(StateAfter(Burst(h, a, n)), a, n)
    ensures AllowedIn(Burst(h, a, n), lo, hi) == AllowedIn(h, lo, hi) + n
  {
    BurstGrows(h, a, 0);
    if n > 0 {
      BurstAllowed(h, a, n - 1, lo, hi);
      BurstGrows(h, a, n - 1);
      AfterOneMore(Burst(h, a, n), Burst(h, a, n - 1), a, lo, hi);
      NextOfBurst(StateAfter(Burst(h, a, n - 1)), a, n - 1);
    }
  }

  /** The calls of a burst come after those before it. */
  ghost predicate Follows(h: seq<Attempt>, a: Attempt) {
    forall i :: 0 <= i < |h| ==> h[i].server <= a.server
  }

  ghost predicate SameLimit(h: seq<Attempt>, limit: int) {
    forall i :: 0 <= i < |h| ==> h[i].limit == limit
  }

  lemma BurstSkewed(h: seq<Attempt>, a: Attempt, n: nat, skew: nat)
    requires Skewed(h, skew) && Follows(h, a) && a.stamp <= a.server <= a.stamp + skew
    ensures Skewed(Burst(h, a, n), skew) && Follows(Burst(h, a, n), a)
    ensures SameLimit(h, a.limit) ==> SameLimit(Burst(h, a, n), a.limit)
  {
  }

  /**
   The loss of `skew` is real, for every skew up to the window and every limit: in a window one tick
   longer, twice the limit can be allowed.
   */
  lemma SkewBoundIsSharp(skew: nat, limit: nat) returns (h: seq<Attempt>)
    requires skew <= WINDOW && limit > 0
    ensures Skewed(h, skew) && SameLimit(h, limit)
    ensures AllowedIn(h, skew, skew + (WINDOW - skew) + 1) == 2 * limit
  {
    var a, b := Attempt(skew, skew, limit), Attempt(WINDOW, WINDOW + skew, limit);
    var lo, hi := skew, WINDOW + 1;
    BurstAllowed([], a, limit, lo, hi);
    BurstSkewed([], a, limit, skew);
    var first := Burst([], a, limit);
    assert Kept(StateAfter(first), b) == [];
    BurstAllowed(first, b, limit, lo, hi);
    BurstSkewed(first, b, limit, skew);
    h := Burst(first, b, limit);
  }

  // ---------------------------------------------------------------- the limiter itself

  function Lookup<T>(m: map<string, T>, key: string): Option<T> {
    if key in m then Some(m[key]) else None
  }

  function Calls(m: map<string, seq<Attempt>>, key: string): seq<Attempt> {
    if key in m then m[key] else []
  }

  /** The stored sets are those the histories lead to. */
  ghost predicate Agree(windows: map<string, Window>, history: map<string, seq<Attempt>>) {
    forall key :: Lookup(windows, key) == StateAfter(Calls(history, key))
  }

  lemma AgreeAfterCall(windows: map<string, Window>, history: map<string, seq<Attempt>>, key: string, a: Attempt,
                       after: map<string, Window>)
    requires Agree(windows, history)
    requires Lookup(after, key) == Touch(Lookup(windows, key), a)
    requires forall k :: k != key ==> Lookup(after, k) == Lookup(windows, k)
    ensures Agree(after, history[key := Calls(history, key) + [a]])
  {
    var h := Calls(history, key);
    assert (h + [a])[..|h|] == h;
    assert Lookup(windows, key) == StateAfter(h);
    var more := history[key := h + [a]];
    forall k
      ensures Lookup(after, k) == StateAfter(Calls(more, k))
    {
      if k != key { assert Lookup(windows, k) == StateAfter(Calls(history, k)); }
    }
  }

  /** The answer to one more call, in terms of the stored set and of the history. */
  lemma NextAnswer(windows: map<string, Window>, history: map<string, seq<Attempt>>, key: string, a: Attempt)
    requires Agree(windows, history)
    ensures var h := Calls(history, key);
            && Allowed(h + [a], |h|) == Admits(Lookup(windows, key), a)
            && (OneClock(h + [a]) ==>
                  (Admits(Lookup(windows, key), a) <==> CountIn(h, a.stamp - WINDOW + 1, a.stamp + 1) < a.limit))
  {
    var h := Calls(history, key);
    assert (h + [a])[..|h|] == h;
    assert Lookup(windows, key) == StateAfter(h);
    if OneClock(h + [a]) {
      ExactRefinement(h, a);
    }
  }

  class SlidingWindowRateLimiter {
    const maxRpm: int
    /** The sorted sets held by Redis. */
    var windows: map<string, Window>
    /** Every call ever made, by key. */
    ghost var history: map<string, seq<Attempt>>

    ghost predicate Valid()
      reads this
    {
      Agree(windows, history)
    }

    constructor (maxRpm: int)
      ensures Valid() && this.maxRpm == maxRpm && history == map[]
    {
      this.maxRpm := maxRpm;
      windows, history := map[], map[];
    }

    /** The pipeline, run as one transaction: the number of scores it counted. */
    method Pipeline(key: string, stamp: Instant, server: Instant) returns (count: nat)
      modifies this`windows
      ensures windows.Keys == old(windows).Keys + {key}
      ensures forall k :: k != key ==> Lookup(windows, k) == Lookup(old(windows), k)
      ensures forall limit :: limit > 0 ==>
                var a := Attempt(stamp, server, limit);
                && Lookup(windows, key) == Touch(Lookup(old(windows), key), a)
                && (count < limit <==> Admits(Lookup(old(windows), key), a))
    {
      var scores := if key in windows && Alive(windows[key].deadline, server) then windows[key].scores else [];
      scores := Prune(scores, stamp - WINDOW);
      count := |scores|;
      scores := scores + [stamp];
      windows := windows[key := Window(scores, server + WINDOW)];
    }

    method AllowRequest(key: string, limit: Option<int>, stamp: Instant, server: Instant)
      returns (allowed: bool)
      requires Valid()
      modifies this
      ensures Valid()
      ensures history == old(history)[key := Calls(old(history), key) +
                [Attempt(stamp, server, if limit.Some? then limit.value else maxRpm)]]
      ensures allowed == Allowed(history[key], |history[key]| - 1)
      ensures allowed == Admits(StateAfter(Calls(old(history), key)),
                                Attempt(stamp, server, if limit.Some? then limit.value else maxRpm))
      ensures OneClock(history[key]) ==>
                (allowed <==> CountIn(Calls(old(history), key), stamp - WINDOW + 1, stamp + 1)
                              < if limit.Some? then limit.value else maxRpm)
      ensures forall k :: k != key ==> Lookup(windows, k) == Lookup(old(windows), k)
    {
      var effective := if limit.Some? then limit.value else maxRpm;
      ghost var a := Attempt(stamp, server, effective);
      NextAnswer(windows, history, key, a);
      allowed := false;
      ghost var before := windows;
      if effective > 0 {
        var count := Pipeline(key, stamp, server);
        allowed := count < effective;
      }
      AgreeAfterCall(before, history, key, a, windows);
      history := history[key := Calls(history, key) + [a]];
    }
  }
}
