/**
 The per-destination circuit breaker: four Redis keys, three methods, each taken as one
 atomic step.  Runs are arbitrary interleavings of such steps by any number of deliveries.
 */
module CircuitBreaker {
  import opened Common

  /** Time to live of the failure counter. */
  const FAILURE_TTL: nat := 60 * SECOND

  datatype Counter = Counter(count: nat, deadline: Instant)

  /** The keys cb:{url}:state, :failures, :open_since and :half_tested. */
  datatype Keys = Keys(state: Option<string>, failures: Option<Counter>, openSince: Option<Instant>, halfTested: bool)

  datatype Config = Config(threshold: int, cooldown: int)

  const FRESH := Keys(None, None, None, false)

  /** is_open, together with the keys it leaves: `admits` is the negation of its answer. */
  function Answer(cfg: Config, k: Keys, now: Instant): (r: (Keys, bool)) {
    if k.state == Some("OPEN") then
      var since := if k.openSince.Some? then k.openSince.value else 0;
      if now - since >= cfg.cooldown then (k.(state := Some("HALF_OPEN")), false) else (k, true)
    else if k.state == Some("HALF_OPEN") then
      if k.halfTested then (k, true) else (k.(halfTested := true), false)
    else
      (k, false)
  }

  function CountedFailures(k: Keys, now: Instant): nat {
    if k.failures.Some? && Alive(k.failures.value.deadline, now) then k.failures.value.count else 0
  }

  /** record_failure. */
  function Fail(cfg: Config, k: Keys, now: Instant): Keys {
    var count := CountedFailures(k, now) + 1;
    var counted := k.(failures := Some(Counter(count, now + FAILURE_TTL)));
    if count >= cfg.threshold then counted.(state := Some("OPEN"), openSince := Some(now)) else counted
  }

  // ---------------------------------------------------------------- runs

  datatype Call = Query(at: Instant) | Success(at: Instant) | Failure(at: Instant)

  function After(cfg: Config, k: Keys, c: Call): Keys {
    match c
    case Query(at) => Answer(cfg, k, at).0
    case Success(_) => FRESH
    case Failure(at) => Fail(cfg, k, at)
  }

  function AfterAll(cfg: Config, k: Keys, calls: seq<Call>): Keys
    decreases |calls|
  {
    if calls == [] then k else AfterAll(cfg, After(cfg, k, calls[0]), calls[1..])
  }

  /** The call is a query that lets its delivery through. */
  predicate Admitted(cfg: Config, k: Keys, c: Call) {
    c.Query? && !Answer(cfg, k, c.at).1
  }

  /** How many calls of a run are let through at an instant in [lo, hi]. */
  function AdmittedIn(cfg: Config, k: Keys, calls: seq<Call>, lo: Instant, hi: Instant): nat
    decreases |calls|
  {
    if calls == [] then 0
    else
      AdmittedIn(cfg, After(cfg, k, calls[0]), calls[1..], lo, hi)
      + (if Admitted(cfg, k, calls[0]) && lo <= calls[0].at <= hi then 1 else 0)
  }

  ghost predicate InOrder(calls: seq<Call>, start: Instant) {
    calls != [] ==> start <= calls[0].at && InOrder(calls[1..], calls[0].at)
  }

  ghost predicate NoSuccess(calls: seq<Call>) {
    forall i :: 0 <= i < |calls| ==> !calls[i].Success?
  }

  /** The breaker has opened and no success has been recorded since. */
  ghost predicate Opened(k: Keys, now: Instant) {
    || (k.state == Some("OPEN") && k.openSince.Some? && k.openSince.value <= now)
    || k.state == Some("HALF_OPEN")
  }

  // ---------------------------------------------------------------- throttling

  /** Admissions still available through the SETNX gate. */
  function GateLeft(k: Keys): nat {
    if k.halfTested then 0 else 1
  }

  /** The earliest instant, from `now` on, at which the cooldown branch can admit. */
  function NextCooldown(cfg: Config, k: Keys, now: Instant): int {
    if k.state == Some("OPEN") && k.openSince.Some? then Max(now, k.openSince.value + cfg.cooldown)
    else now + cfg.cooldown
  }

  /** Cooldown admissions that fit from instant `first` up to `hi`, one every `cooldown`. */
  function Slots(first: int, hi: int, cooldown: int): nat
    requires cooldown > 0
  {
    if first > hi then 0 else (hi - first) / cooldown + 1
  }

  lemma SlotsStep(first: int, later: int, hi: int, cooldown: int)
    requires cooldown > 0 && first <= later
    ensures Slots(later, hi, cooldown) <= Slots(first, hi, cooldown)
    ensures later <= hi ==> Slots(later, hi, cooldown) == 1 + Slots(later + cooldown, hi, cooldown)
  {
    if later <= hi {
      DivMonotone(hi - later, hi - first, cooldown);
      if later + cooldown <= hi {
        assert (hi - later) / cooldown == (hi - later - cooldown) / cooldown + 1 by {
          DivStep(hi - later - cooldown, cooldown);
        }
      } else {
        assert (hi - later) / cooldown == 0;
      }
    }
  }

  lemma OpenedStep(cfg: Config, k: Keys, c: Call, now: Instant)
    requires Opened(k, now) && now <= c.at && !c.Success?
    ensures Opened(After(cfg, k, c), c.at)
  {
  }

  /** From an instant on: one admission per cooldown, plus the one the gate may still give. */
  lemma {:induction false} ThrottleFrom(cfg: Config, k: Keys, calls: seq<Call>, now: Instant, hi: Instant)
    requires cfg.cooldown > 0 && Opened(k, now) && InOrder(calls, now) && NoSuccess(calls)
    ensures AdmittedIn(cfg, k, calls, now, hi) <= GateLeft(k) + Slots(NextCooldown(cfg, k, now), hi, cfg.cooldown)
    decreases |calls|
  {
    if calls != [] {
      var c := calls[0];
      var k' := After(cfg, k, c);
      OpenedStep(cfg, k, c, now);
      assert NoSuccess(calls[1..]);
      ThrottleFrom(cfg, k', calls[1..], c.at, hi);
      LowerBoundIrrelevant(cfg, k', calls[1..], now, c.at, hi);
      SlotsStep(NextCooldown(cfg, k, now), NextCooldown(cfg, k, c.at), hi, cfg.cooldown);
      SlotsStep(NextCooldown(cfg, k, c.at), NextCooldown(cfg, k', c.at), hi, cfg.cooldown);
      if Admitted(cfg, k, c) && k.state == Some("OPEN") {
        SlotsStep(c.at, c.at, hi, cfg.cooldown);
      }
    }
  }

  lemma {:induction false} LowerBoundIrrelevant(cfg: Config, k: Keys, calls: seq<Call>, lo: Instant, now: Instant,
                                                hi: Instant)
    requires InOrder(calls, now) && lo <= now
    ensures AdmittedIn(cfg, k, calls, lo, hi) == AdmittedIn(cfg, k, calls, now, hi)
    decreases |calls|
  {
    if calls != [] {
      LowerBoundIrrelevant(cfg, After(cfg, k, calls[0]), calls[1..], lo, calls[0].at, hi);
      LowerBoundIrrelevant(cfg, After(cfg, k, calls[0]), calls[1..], now, calls[0].at, hi);
    }
  }

  /**
   Throttling: once opened and until the next recorded success, any interval of length L holds at
   most floor(L / cooldown) + 2 admissions, whatever stale failures are recorded meanwhile.
   */
  lemma {:induction false} ThrottleBound(cfg: Config, k: Keys, calls: seq<Call>, now: Instant, lo: Instant, hi: Instant)
    requires cfg.cooldown > 0 && Opened(k, now) && InOrder(calls, now) && NoSuccess(calls)
    requires lo <= hi
    ensures AdmittedIn(cfg, k, calls, lo, hi) <= (hi - lo) / cfg.cooldown + 2
    decreases |calls|
  {
    if calls != [] {
      var c := calls[0];
      if c.at < lo {
        OpenedStep(cfg, k, c, now);
        assert NoSuccess(calls[1..]);
        ThrottleBound(cfg, After(cfg, k, c), calls[1..], c.at, lo, hi);
      } else {
        var from := if now < lo then lo else now;
        assert InOrder(calls, from);
        ThrottleFrom(cfg, k, calls, from, hi);
        LowerBoundIrrelevant(cfg, k, calls, lo, from, hi);
        SlotsStep(lo, NextCooldown(cfg, k, from), hi, cfg.cooldown);
      }
    }
  }

  // ---------------------------------------------------------------- the two ways of being admitted

  function KeysAt(cfg: Config, k: Keys, calls: seq<Call>, i: nat): Keys
    requires i <= |calls|
    decreases i
  {
    if i == 0 then k else KeysAt(cfg, After(cfg, k, calls[0]), calls[1..], i - 1)
  }

  /** Call `i` is admitted by the cooldown branch. */
  predicate ByCooldown(cfg: Config, k: Keys, calls: seq<Call>, i: nat)
    requires i < |calls|
  {
    KeysAt(cfg, k, calls, i).state == Some("OPEN") && Admitted(cfg, KeysAt(cfg, k, calls, i), calls[i])
  }

  /** Call `i` is admitted by winning the SETNX on half_tested. */
  predicate ByGate(cfg: Config, k: Keys, calls: seq<Call>, i: nat)
    requires i < |calls|
  {
    KeysAt(cfg, k, calls, i).state == Some("HALF_OPEN") && Admitted(cfg, KeysAt(cfg, k, calls, i), calls[i])
  }

  lemma {:induction false} CooldownNotBefore(cfg: Config, k: Keys, calls: seq<Call>, now: Instant, j: nat)
    requires Opened(k, now) && InOrder(calls, now) && NoSuccess(calls) && cfg.cooldown >= 0
    requires j < |calls| && ByCooldown(cfg, k, calls, j)
    ensures NextCooldown(cfg, k, now) <= calls[j].at
    decreases j
  {
    if j > 0 {
      OpenedStep(cfg, k, calls[0], now);
      assert NoSuccess(calls[1..]);
      CooldownNotBefore(cfg, After(cfg, k, calls[0]), calls[1..], calls[0].at, j - 1);
    }
  }

  /** Two admissions by the cooldown branch with no success between them are a cooldown apart. */
  lemma {:induction false} CooldownSpacing(cfg: Config, k: Keys, calls: seq<Call>, now: Instant, i: nat, j: nat)
    requires Opened(k, now) && InOrder(calls, now) && NoSuccess(calls) && cfg.cooldown >= 0
    requires i < j < |calls| && ByCooldown(cfg, k, calls, i) && ByCooldown(cfg, k, calls, j)
    ensures calls[j].at - calls[i].at >= cfg.cooldown
    decreases i
  {
    OpenedStep(cfg, k, calls[0], now);
    assert NoSuccess(calls[1..]);
    if i == 0 {
      CooldownNotBefore(cfg, After(cfg, k, calls[0]), calls[1..], calls[0].at, j - 1);
    } else {
      CooldownSpacing(cfg, After(cfg, k, calls[0]), calls[1..], calls[0].at, i - 1, j - 1);
    }
  }

  lemma {:induction false} TestedStays(cfg: Config, k: Keys, calls: seq<Call>, j: nat)
    requires k.halfTested && NoSuccess(calls) && j <= |calls|
    ensures KeysAt(cfg, k, calls, j).halfTested
    decreases j
  {
    if j > 0 {
      assert NoSuccess(calls[1..]);
      TestedStays(cfg, After(cfg, k, calls[0]), calls[1..], j - 1);
    }
  }

  /** The gate lets at most one call through between two successes. */
  lemma {:induction false} GateOnce(cfg: Config, k: Keys, calls: seq<Call>, i: nat, j: nat)
    requires NoSuccess(calls) && i < j < |calls| && ByGate(cfg, k, calls, i)
    ensures !ByGate(cfg, k, calls, j)
    decreases i
  {
    assert NoSuccess(calls[1..]);
    if i == 0 {
      TestedStays(cfg, After(cfg, k, calls[0]), calls[1..], j - 1);
    } else {
      GateOnce(cfg, After(cfg, k, calls[0]), calls[1..], i - 1, j - 1);
    }
  }

  // ---------------------------------------------------------------- recovery

  /** The breaker with the deliveries it has let through and that have not reported back. */
  datatype System = System(keys: Keys, inFlight: nat, clock: Instant)

  /**
   A delivery asks; an admitted one ends in a recorded success, in a recorded failure, or
   silently, because a rate limiter turned it away after the breaker had let it through.
   */
  datatype Move = Ask(at: Instant) | EndSuccess(at: Instant) | EndFailure(at: Instant) | EndSilently(at: Instant)

  predicate Possible(s: System, m: Move) {
    s.clock <= m.at && (m.Ask? || s.inFlight > 0)
  }

  function Step(cfg: Config, s: System, m: Move): System
    requires Possible(s, m)
  {
    match m
    case Ask(at) =>
      var (k, open) := Answer(cfg, s.keys, at);
      System(k, if open then s.inFlight else s.inFlight + 1, at)
    case EndSuccess(at) => System(FRESH, s.inFlight - 1, at)
    case EndFailure(at) => System(Fail(cfg, s.keys, at), s.inFlight - 1, at)
    case EndSilently(at) => System(s.keys, s.inFlight - 1, at)
  }

  predicate Legal(cfg: Config, s: System, moves: seq<Move>)
    decreases |moves|
  {
    moves == [] || (Possible(s, moves[0]) && Legal(cfg, Step(cfg, s, moves[0]), moves[1..]))
  }

  function Final(cfg: Config, s: System, moves: seq<Move>): System
    requires Legal(cfg, s, moves)
    decreases |moves|
  {
    if moves == [] then s else Final(cfg, Step(cfg, s, moves[0]), moves[1..])
  }

  /** Some delivery is let through during the run. */
  predicate LetsThrough(cfg: Config, s: System, moves: seq<Move>)
    requires Legal(cfg, s, moves)
    decreases |moves|
  {
    moves != [] &&
    (|| (moves[0].Ask? && !Answer(cfg, s.keys, moves[0].at).1)
     || LetsThrough(cfg, Step(cfg, s, moves[0]), moves[1..]))
  }

  predicate Stuck(k: Keys) {
    k.state == Some("HALF_OPEN") && k.halfTested
  }

  /** With nobody in flight, the stuck keys never change again and nobody is ever let through. */
  lemma {:induction false} StuckIsAbsorbing(cfg: Config, s: System, moves: seq<Move>)
    requires Stuck(s.keys) && s.inFlight == 0 && Legal(cfg, s, moves)
    ensures Final(cfg, s, moves).keys == s.keys && Final(cfg, s, moves).inFlight == 0
    ensures !LetsThrough(cfg, s, moves)
    decreases |moves|
  {
    if moves != [] {
      StuckIsAbsorbing(cfg, Step(cfg, s, moves[0]), moves[1..]);
    }
  }

  ghost predicate CanRecover(cfg: Config, s: System) {
    exists moves :: Legal(cfg, s, moves) && LetsThrough(cfg, s, moves)
  }

  /**
   Some future run lets a delivery through exactly when the keys are not stuck or a delivery that
   was let through can still report a success.
   */
  lemma RecoversUnlessStuck(cfg: Config, s: System)
    ensures CanRecover(cfg, s) <==> !Stuck(s.keys) || s.inFlight > 0
  {
    if Stuck(s.keys) && s.inFlight == 0 {
      forall moves | Legal(cfg, s, moves)
        ensures !LetsThrough(cfg, s, moves)
      {
        StuckIsAbsorbing(cfg, s, moves);
      }
    } else if s.inFlight > 0 {
      var moves := [EndSuccess(s.clock), Ask(s.clock)];
      var s' := Step(cfg, s, moves[0]);
      assert moves[1..] == [Ask(s.clock)] && [Ask(s.clock)][1..] == [];
      assert Legal(cfg, Step(cfg, s', Ask(s.clock)), []);
      assert Legal(cfg, s', moves[1..]) && LetsThrough(cfg, s', moves[1..]);
      assert Legal(cfg, s, moves) && LetsThrough(cfg, s, moves);
    } else {
      var since := if s.keys.openSince.Some? then s.keys.openSince.value else 0;
      var at: Instant := Max(s.clock, since + cfg.cooldown);
      var moves := [Ask(at)];
      assert Legal(cfg, Step(cfg, s, Ask(at)), moves[1..]);
      assert Legal(cfg, s, moves) && LetsThrough(cfg, s, moves);
    }
  }

  lemma {:induction false} Extend(cfg: Config, s: System, moves: seq<Move>, m: Move)
    requires Legal(cfg, s, moves) && Possible(Final(cfg, s, moves), m)
    ensures Legal(cfg, s, moves + [m])
    ensures Final(cfg, s, moves + [m]) == Step(cfg, Final(cfg, s, moves), m)
    decreases |moves|
  {
    if moves == [] {
      assert [m][1..] == [];
    } else {
      Extend(cfg, Step(cfg, s, moves[0]), moves[1..], m);
      assert (moves + [m])[1..] == moves[1..] + [m];
    }
  }

  const START := System(FRESH, 0, 0)

  /** n deliveries that fail one after the other at instant zero. */
  lemma {:induction false} Burst(cfg: Config, n: nat) returns (moves: seq<Move>)
    requires 0 < n <= Max(cfg.threshold, 1)
    ensures Legal(cfg, START, moves)
    ensures Final(cfg, START, moves) == System(
              Keys(if n >= cfg.threshold then Some("OPEN") else None, Some(Counter(n, FAILURE_TTL)),
                   if n >= cfg.threshold then Some(0) else None, false), 0, 0)
  {
    if n == 1 {
      moves := [];
    } else {
      moves := Burst(cfg, n - 1);
    }
    Extend(cfg, START, moves, Ask(0));
    Extend(cfg, START, moves + [Ask(0)], EndFailure(0));
    moves := moves + [Ask(0)] + [EndFailure(0)];
  }

  /**
   The stuck state is reached when two probes fail more than the counter's lifetime apart: each
   finds the counter gone, counts one failure, and does not re-open the breaker.
   */
  lemma StuckThroughCounterExpiry(cfg: Config) returns (moves: seq<Move>)
    requires cfg.threshold >= 2
    ensures Legal(cfg, START, moves)
    ensures Stuck(Final(cfg, START, moves).keys) && Final(cfg, START, moves).inFlight == 0
  {
    moves := Burst(cfg, cfg.threshold);
    var t: Instant := Max(cfg.cooldown, 0);
    var u, v := t + FAILURE_TTL, t + 2 * FAILURE_TTL;
    Extend(cfg, START, moves, Ask(t));
    moves := moves + [Ask(t)];
    Extend(cfg, START, moves, EndFailure(u));
    moves := moves + [EndFailure(u)];
    Extend(cfg, START, moves, Ask(u));
    moves := moves + [Ask(u)];
    Extend(cfg, START, moves, EndFailure(v));
    moves := moves + [EndFailure(v)];
  }

  // ---------------------------------------------------------------- the throttling bound is reached

  /** The calls on the breaker that a run of deliveries makes. */
  function CallsOf(moves: seq<Move>): seq<Call> {
    if moves == [] then []
    else
      (match moves[0]
       case Ask(at) => [Query(at)]
       case EndSuccess(at) => [Success(at)]
       case EndFailure(at) => [Failure(at)]
       case EndSilently(_) => [])
      + CallsOf(moves[1..])
  }

  ghost predicate NoneSucceeds(moves: seq<Move>) {
    forall i :: 0 <= i < |moves| ==> !moves[i].EndSuccess?
  }

  lemma InOrderFrom(calls: seq<Call>, start: Instant, later: Instant)
    requires start <= later && InOrder(calls, later)
    ensures InOrder(calls, start)
  {
  }

  /** A run of deliveries is a run of the breaker's calls. */
  lemma {:induction false} MovesAreCalls(cfg: Config, s: System, moves: seq<Move>)
    requires Legal(cfg, s, moves)
    ensures InOrder(CallsOf(moves), s.clock)
    ensures Final(cfg, s, moves).keys == AfterAll(cfg, s.keys, CallsOf(moves))
    ensures NoneSucceeds(moves) ==> NoSuccess(CallsOf(moves))
    decreases |moves|
  {
    if moves != [] {
      var s', rest := Step(cfg, s, moves[0]), CallsOf(moves[1..]);
      MovesAreCalls(cfg, s', moves[1..]);
      if moves[0].EndSilently? {
        assert CallsOf(moves) == rest;
        InOrderFrom(rest, s.clock, s'.clock);
      } else {
        assert CallsOf(moves)[1..] == rest;
      }
    }
  }

  /** The throttling bound, for deliveries that report only what they were let through for. */
  lemma DeliveriesThrottled(cfg: Config, s: System, moves: seq<Move>, lo: Instant, hi: Instant)
    requires cfg.cooldown > 0 && Opened(s.keys, s.clock) && lo <= hi
    requires Legal(cfg, s, moves) && NoneSucceeds(moves)
    ensures AdmittedIn(cfg, s.keys, CallsOf(moves), lo, hi) <= (hi - lo) / cfg.cooldown + 2
  {
    MovesAreCalls(cfg, s, moves);
    ThrottleBound(cfg, s.keys, CallsOf(moves), s.clock, lo, hi);
  }

  /**
   m deliveries fail at t, one cooldown later another one asks, and then n - 1 times the same with
   as many failures as it takes to open.
   */
  function Probes(cfg: Config, t: Instant, n: nat, m: nat): seq<Move>
    requires cfg.cooldown > 0
    decreases n, m
  {
    if n == 0 then []
    else if m > 0 then [EndFailure(t)] + Probes(cfg, t, n, m - 1)
    else [Ask(t + cfg.cooldown)] + Probes(cfg, t + cfg.cooldown, n - 1, Max(cfg.threshold, 1))
  }

  /** Failures that n such rounds report, of which the first still has m to go. */
  function FailuresIn(cfg: Config, n: nat, m: nat): nat
    decreases n
  {
    if n == 0 then 0 else m + FailuresIn(cfg, n - 1, Max(cfg.threshold, 1))
  }

  lemma OneCooldownLess(cooldown: int, n: nat)
    requires n > 0 && cooldown > 0
    ensures n * cooldown == cooldown + (n - 1) * cooldown && (n - 1) * cooldown >= 0
  {
  }

  /** Every one of these asks is let through, given enough deliveries in flight to fail. */
  lemma {:induction false} ProbesAdmitted(cfg: Config, s: System, t: Instant, n: nat, m: nat, lo: Instant, hi: Instant)
    requires cfg.cooldown > 0 && s.clock <= t && lo <= t && t + n * cfg.cooldown <= hi
    requires CountedFailures(s.keys, t) + m >= cfg.threshold && s.inFlight >= FailuresIn(cfg, n, m)
    requires m == 0 ==> s.keys.state == Some("OPEN") && s.keys.openSince == Some(t)
    ensures Legal(cfg, s, Probes(cfg, t, n, m)) && NoneSucceeds(Probes(cfg, t, n, m))
    ensures AdmittedIn(cfg, s.keys, CallsOf(Probes(cfg, t, n, m)), lo, hi) == n
    decreases n, m
  {
    if n > 0 {
      var moves := Probes(cfg, t, n, m);
      var s' := Step(cfg, s, moves[0]);
      if m > 0 {
        ProbesAdmitted(cfg, s', t, n, m - 1, lo, hi);
        assert moves[1..] == Probes(cfg, t, n, m - 1);
      } else {
        OneCooldownLess(cfg.cooldown, n);
        ProbesAdmitted(cfg, s', t + cfg.cooldown, n - 1, Max(cfg.threshold, 1), lo, hi);
        assert moves[1..] == Probes(cfg, t + cfg.cooldown, n - 1, Max(cfg.threshold, 1));
      }
      assert CallsOf(moves)[1..] == CallsOf(moves[1..]);
    }
  }

  /** k deliveries are let through at instant zero. */
  lemma {:induction false} AsksAtZero(cfg: Config, k: nat) returns (moves: seq<Move>)
    ensures Legal(cfg, START, moves) && Final(cfg, START, moves) == System(FRESH, k, 0)
  {
    moves := [];
    if k > 0 {
      moves := AsksAtZero(cfg, k - 1);
      Extend(cfg, START, moves, Ask(0));
      moves := moves + [Ask(0)];
    }
  }

  /** j of k deliveries let through fail at instant zero. */
  lemma {:induction false} FailuresAtZero(cfg: Config, k: nat, j: nat) returns (moves: seq<Move>)
    requires 0 < j <= Max(cfg.threshold, 1) && j <= k
    ensures Legal(cfg, START, moves)
    ensures Final(cfg, START, moves) == System(
              Keys(if j >= cfg.threshold then Some("OPEN") else None, Some(Counter(j, FAILURE_TTL)),
                   if j >= cfg.threshold then Some(0) else None, false), k - j, 0)
  {
    if j == 1 {
      moves := AsksAtZero(cfg, k);
    } else {
      moves := FailuresAtZero(cfg, k, j - 1);
    }
    Extend(cfg, START, moves, EndFailure(0));
    moves := moves + [EndFailure(0)];
  }

  /**
   The bound is reached for every n: from the start, deliveries that are let through and fail bring
   the breaker to a state from which n + 2 more are let through inside an interval of n cooldowns,
   every failure in between being that of a delivery let through before.
   */
  lemma ThrottleBoundIsTight(cfg: Config, n: nat)
    returns (before: seq<Move>, moves: seq<Move>, lo: Instant, hi: Instant)
    requires cfg.cooldown > 0
    ensures Legal(cfg, START, before)
    ensures var s := Final(cfg, START, before);
            && Opened(s.keys, s.clock) && Legal(cfg, s, moves) && NoneSucceeds(moves)
            && lo <= hi && hi - lo == n * cfg.cooldown
            && AdmittedIn(cfg, s.keys, CallsOf(moves), lo, hi) == n + 2
  {
    var m := Max(cfg.threshold, 1);
    before := FailuresAtZero(cfg, m + FailuresIn(cfg, n, m), m);
    var s := Final(cfg, START, before);
    var c: nat := cfg.cooldown;
    assert n * c >= 0;
    lo, hi := c, c + n * c;
    var s1 := Step(cfg, s, Ask(c));
    var s2 := Step(cfg, s1, Ask(c));
    ProbesAdmitted(cfg, s2, c, n, m, lo, hi);
    var tail := Probes(cfg, c, n, m);
    var late := [Ask(c)] + tail;
    moves := [Ask(c)] + late;
    assert late[1..] == tail && moves[1..] == late;
    assert CallsOf(late)[1..] == CallsOf(tail) && CallsOf(moves)[1..] == CallsOf(late);
    assert Legal(cfg, s1, late);
    assert AdmittedIn(cfg, s1.keys, CallsOf(late), lo, hi) == n + 1;
  }

  // ---------------------------------------------------------------- the failure counter

  /** The last n failures of `f` follow one another within the counter's lifetime. */
  ghost predicate IsChain(f: seq<Instant>, n: nat) {
    n <= |f| && forall i :: |f| - n < i < |f| ==> f[i] < f[i - 1] + 60 * SECOND
  }

  ghost predicate LongestChain(f: seq<Instant>, n: nat) {
    IsChain(f, n) && forall m: nat :: IsChain(f, m) ==> m <= n
  }

  /** The counter key against the failures recorded since the last success. */
  ghost predicate CountsChain(k: Keys, f: seq<Instant>) {
    if f == [] then k.failures == None
    else
      && k.failures.Some?
      && LongestChain(f, k.failures.value.count)
      && k.failures.value.deadline == f[|f| - 1] + FAILURE_TTL
  }

  lemma ChainExtends(f: seq<Instant>, n: nat, at: Instant)
    requires f != [] && LongestChain(f, n)
    ensures LongestChain(f + [at], if at < f[|f| - 1] + FAILURE_TTL then n + 1 else 1)
  {
    var g := f + [at];
    var alive := at < f[|f| - 1] + FAILURE_TTL;
    assert IsChain(g, if alive then n + 1 else 1);
    forall m: nat | IsChain(g, m)
      ensures m <= if alive then n + 1 else 1
    {
      if m > 1 {
        assert g[|f|] < g[|f| - 1] + FAILURE_TTL;
        forall i | |f| - (m - 1) < i < |f|
          ensures f[i] < f[i - 1] + FAILURE_TTL
        {
          assert g[i] < g[i - 1] + FAILURE_TTL;
        }
        assert IsChain(f, m - 1);
      }
    }
  }

  /**
   A recorded failure leaves the counter at the length of the longest unbroken chain ending in it,
   and opens the breaker exactly when that chain has reached the threshold.
   */
  lemma FailureFollowsChain(cfg: Config, k: Keys, f: seq<Instant>, at: Instant, n: nat)
    requires CountsChain(k, f) && LongestChain(f + [at], n)
    ensures var k' := Fail(cfg, k, at);
            && CountsChain(k', f + [at]) && k'.failures.value.count == n
            && k'.halfTested == k.halfTested
            && (if n >= cfg.threshold then k'.state == Some("OPEN") && k'.openSince == Some(at)
                else k'.state == k.state && k'.openSince == k.openSince)
  {
    var m := CountedFailures(k, at) + 1;
    if f == [] {
      assert f + [at] == [at];
      assert LongestChain([at], 1);
    } else {
      ChainExtends(f, k.failures.value.count, at);
    }
    LongestUnique(f + [at], m, n);
    assert (f + [at])[|f|] == at;
  }

  lemma LongestUnique(f: seq<Instant>, m: nat, n: nat)
    requires LongestChain(f, m) && LongestChain(f, n)
    ensures m == n
  {
  }

  /** Failures of a run recorded after its last success. */
  function FailuresSince(calls: seq<Call>): seq<Instant> {
    if calls == [] then []
    else
      var before := FailuresSince(calls[..|calls| - 1]);
      match calls[|calls| - 1]
      case Query(_) => before
      case Success(_) => []
      case Failure(at) => before + [at]
  }

  lemma {:induction false} AfterAllSnoc(cfg: Config, k: Keys, calls: seq<Call>, c: Call)
    ensures AfterAll(cfg, k, calls + [c]) == After(cfg, AfterAll(cfg, k, calls), c)
    decreases |calls|
  {
    if calls == [] {
      assert [c][1..] == [];
    } else {
      AfterAllSnoc(cfg, After(cfg, k, calls[0]), calls[1..], c);
      assert (calls + [c])[1..] == calls[1..] + [c];
    }
  }

  lemma {:induction false} SomeLongestChain(f: seq<Instant>) returns (n: nat)
    ensures LongestChain(f, n)
  {
    if f == [] {
      n := 0;
    } else {
      var m := SomeLongestChain(f[..|f| - 1]);
      assert f == f[..|f| - 1] + [f[|f| - 1]];
      if |f| == 1 {
        n := 1;
      } else {
        ChainExtends(f[..|f| - 1], m, f[|f| - 1]);
        n := if f[|f| - 1] < f[|f| - 2] + FAILURE_TTL then m + 1 else 1;
      }
    }
  }

  /** Over every run the expiring counter is the length of the current unbroken chain of failures. */
  lemma {:induction false} CounterRefinesHistory(cfg: Config, calls: seq<Call>)
    ensures CountsChain(AfterAll(cfg, FRESH, calls), FailuresSince(calls))
    decreases |calls|
  {
    if calls != [] {
      var c := calls[|calls| - 1];
      var before := calls[..|calls| - 1];
      assert before + [c] == calls;
      CounterRefinesHistory(cfg, before);
      AfterAllSnoc(cfg, FRESH, before, c);
      if c.Failure? {
        var n := SomeLongestChain(FailuresSince(before) + [c.at]);
        FailureFollowsChain(cfg, AfterAll(cfg, FRESH, before), FailuresSince(before), c.at, n);
      }
    }
  }

  // ---------------------------------------------------------------- what a query is answered

  /** The failures end in an unbroken chain of at least `threshold`. */
  ghost predicate ChainReaches(f: seq<Instant>, threshold: int) {
    exists n: nat :: LongestChain(f, n) && n >= threshold
  }

  /** Call `o` records the failure with which an unbroken chain reaches the threshold, or goes on beyond it. */
  ghost predicate Opens(cfg: Config, h: seq<Call>, o: nat) {
    o < |h| && h[o].Failure? && ChainReaches(FailuresSince(h[..o + 1]), cfg.threshold)
  }

  /** Call `o` is the last one to open the breaker, and no success came after it. */
  ghost predicate LastOpening(cfg: Config, h: seq<Call>, o: nat) {
    Opens(cfg, h, o) && forall k: nat :: o < k < |h| ==> !h[k].Success? && !Opens(cfg, h, k)
  }

  /** Query `k` came after the cooldown that call `o` started. */
  predicate Ripe(cfg: Config, h: seq<Call>, o: nat, k: nat) {
    o < k < |h| && h[k].Query? && h[k].at - h[o].at >= cfg.cooldown
  }

  /** Opened by `o`, and not yet asked after the cooldown. */
  ghost predicate CoolingSince(cfg: Config, h: seq<Call>, o: nat) {
    LastOpening(cfg, h, o) && forall k: nat :: !Ripe(cfg, h, o, k)
  }

  /** Opened, and asked after the cooldown. */
  ghost predicate HalfOpen(cfg: Config, h: seq<Call>) {
    exists o: nat, k: nat :: LastOpening(cfg, h, o) && Ripe(cfg, h, o, k)
  }

  /** Call `g` asked a half-open breaker, and no success has been recorded since. */
  ghost predicate TakesGate(cfg: Config, h: seq<Call>, g: nat) {
    && g < |h| && h[g].Query? && HalfOpen(cfg, h[..g])
    && forall k: nat :: g < k < |h| ==> !h[k].Success?
  }

  ghost predicate GateTaken(cfg: Config, h: seq<Call>) {
    exists g: nat :: TakesGate(cfg, h, g)
  }

  /** After the calls `h`, a query at this instant is denied: still cooling, or the gate is taken. */
  ghost predicate Denies(cfg: Config, h: seq<Call>, at: Instant) {
    || (exists o: nat :: CoolingSince(cfg, h, o) && at - h[o].at < cfg.cooldown)
    || (HalfOpen(cfg, h) && GateTaken(cfg, h))
  }

  /** The breaker's keys against the whole history of calls. */
  ghost predicate KeysFollow(cfg: Config, h: seq<Call>, k: Keys) {
    && (k.state.None? || k.state == Some("OPEN") || k.state == Some("HALF_OPEN"))
    && (k.state == Some("OPEN") <==> exists o: nat :: CoolingSince(cfg, h, o))
    && (forall o: nat :: CoolingSince(cfg, h, o) ==> k.openSince == Some(h[o].at))
    && (k.state == Some("HALF_OPEN") <==> HalfOpen(cfg, h))
    && (k.halfTested <==> GateTaken(cfg, h))
  }

  /** `g` is `h` with one more call. */
  ghost predicate OneMore(g: seq<Call>, h: seq<Call>, c: Call) {
    |g| == |h| + 1 && g[..|h|] == h && g[|h|] == c
  }

  lemma PrefixStays(g: seq<Call>, h: seq<Call>, c: Call, n: nat)
    requires OneMore(g, h, c) && n <= |h|
    ensures g[..n] == h[..n]
  {
    assert g[..n] == g[..|h|][..n];
  }

  lemma OpensStays(cfg: Config, g: seq<Call>, h: seq<Call>, c: Call, o: nat)
    requires OneMore(g, h, c) && o < |h|
    ensures Opens(cfg, g, o) <==> Opens(cfg, h, o)
  {
    PrefixStays(g, h, c, o + 1);
    assert g[o] == g[..|h|][o];
  }

  lemma OpeningStays(cfg: Config, g: seq<Call>, h: seq<Call>, c: Call, o: nat)
    requires OneMore(g, h, c) && o < |h| && !c.Success? && !Opens(cfg, g, |h|)
    ensures LastOpening(cfg, g, o) <==> LastOpening(cfg, h, o)
  {
    forall k: nat | k < |h|
      ensures g[k] == h[k] && (Opens(cfg, g, k) <==> Opens(cfg, h, k))
    {
      OpensStays(cfg, g, h, c, k);
      assert g[k] == g[..|h|][k];
    }
  }

  lemma RipeStays(cfg: Config, g: seq<Call>, h: seq<Call>, c: Call, o: nat, k: nat)
    requires OneMore(g, h, c) && o < |h|
    ensures Ripe(cfg, g, o, k) <==>
            Ripe(cfg, h, o, k) || (k == |h| && c.Query? && c.at - h[o].at >= cfg.cooldown)
  {
    assert g[o] == g[..|h|][o];
    if k < |h| { assert g[k] == g[..|h|][k]; }
  }

  lemma GateStays(cfg: Config, g: seq<Call>, h: seq<Call>, c: Call, q: nat)
    requires OneMore(g, h, c) && !c.Success?
    ensures TakesGate(cfg, g, q) <==> TakesGate(cfg, h, q) || (q == |h| && c.Query? && HalfOpen(cfg, h))
  {
    if q <= |h| { PrefixStays(g, h, c, q); }
    forall k: nat | k < |h|
      ensures g[k] == h[k]
    {
      assert g[k] == g[..|h|][k];
    }
    assert q == |h| ==> h[..q] == h;
  }

  lemma GateAfter(cfg: Config, g: seq<Call>, h: seq<Call>, c: Call)
    requires OneMore(g, h, c) && !c.Success?
    ensures GateTaken(cfg, g) <==> GateTaken(cfg, h) || (c.Query? && HalfOpen(cfg, h))
  {
    if q: nat :| TakesGate(cfg, g, q) {
      GateStays(cfg, g, h, c, q);
    }
    if q: nat :| TakesGate(cfg, h, q) {
      GateStays(cfg, g, h, c, q);
    }
    GateStays(cfg, g, h, c, |h|);
  }

  lemma OpeningIsUnique(cfg: Config, h: seq<Call>, o: nat, p: nat)
    requires LastOpening(cfg, h, o) && LastOpening(cfg, h, p)
    ensures o == p
  {
  }

  /** A call that neither opens nor resets: the last opening stays what it was. */
  lemma SameOpening(cfg: Config, g: seq<Call>, h: seq<Call>, c: Call, o: nat)
    requires OneMore(g, h, c) && !c.Success? && !Opens(cfg, g, |h|)
    ensures LastOpening(cfg, g, o) <==> LastOpening(cfg, h, o)
    ensures LastOpening(cfg, g, o) ==> o < |h| && g[o] == h[o]
  {
    if o < |h| {
      OpeningStays(cfg, g, h, c, o);
      assert g[o] == g[..|h|][o];
    }
  }

  lemma CoolingAfter(cfg: Config, g: seq<Call>, h: seq<Call>, c: Call, o: nat)
    requires OneMore(g, h, c) && !c.Success? && !Opens(cfg, g, |h|)
    ensures CoolingSince(cfg, g, o) <==>
            CoolingSince(cfg, h, o) && !(c.Query? && c.at - h[o].at >= cfg.cooldown)
    ensures CoolingSince(cfg, g, o) ==> g[o] == h[o]
  {
    SameOpening(cfg, g, h, c, o);
    if LastOpening(cfg, h, o) {
      RipeStays(cfg, g, h, c, o, |h|);
      forall k: nat
        ensures Ripe(cfg, g, o, k) <==>
                Ripe(cfg, h, o, k) || (k == |h| && c.Query? && c.at - h[o].at >= cfg.cooldown)
      {
        RipeStays(cfg, g, h, c, o, k);
      }
    }
  }

  lemma HalfOpenAfter(cfg: Config, g: seq<Call>, h: seq<Call>, c: Call)
    requires OneMore(g, h, c) && !c.Success? && !Opens(cfg, g, |h|)
    ensures HalfOpen(cfg, g) <==>
            HalfOpen(cfg, h) || (c.Query? && exists o: nat :: CoolingSince(cfg, h, o) && c.at - h[o].at >= cfg.cooldown)
  {
    if o: nat, k: nat :| LastOpening(cfg, g, o) && Ripe(cfg, g, o, k) {
      SameOpening(cfg, g, h, c, o);
      RipeStays(cfg, g, h, c, o, k);
    }
    if o: nat, k: nat :| LastOpening(cfg, h, o) && Ripe(cfg, h, o, k) {
      SameOpening(cfg, g, h, c, o);
      RipeStays(cfg, g, h, c, o, k);
    }
    if o: nat :| CoolingSince(cfg, h, o) && c.Query? && c.at - h[o].at >= cfg.cooldown {
      SameOpening(cfg, g, h, c, o);
      RipeStays(cfg, g, h, c, o, |h|);
    }
  }

  lemma QueryFollows(cfg: Config, g: seq<Call>, h: seq<Call>, c: Call, k: Keys)
    requires OneMore(g, h, c) && c.Query? && KeysFollow(cfg, h, k)
    ensures KeysFollow(cfg, g, After(cfg, k, c))
  {
    forall o: nat
      ensures CoolingSince(cfg, g, o) <==> CoolingSince(cfg, h, o) && c.at - h[o].at < cfg.cooldown
      ensures CoolingSince(cfg, g, o) ==> g[o] == h[o]
    {
      CoolingAfter(cfg, g, h, c, o);
    }
    HalfOpenAfter(cfg, g, h, c);
    GateAfter(cfg, g, h, c);
    if o: nat :| CoolingSince(cfg, h, o) {
      assert CoolingSince(cfg, g, o) <==> c.at - h[o].at < cfg.cooldown;
      forall p: nat | CoolingSince(cfg, h, p)
        ensures p == o
      {
        OpeningIsUnique(cfg, h, o, p);
      }
    }
  }

  lemma SuccessFollows(cfg: Config, g: seq<Call>, h: seq<Call>, c: Call)
    requires OneMore(g, h, c) && c.Success?
    ensures KeysFollow(cfg, g, FRESH)
  {
    assert forall o: nat :: !LastOpening(cfg, g, o) && !TakesGate(cfg, g, o);
  }

  lemma OpeningFailure(cfg: Config, g: seq<Call>, h: seq<Call>, c: Call)
    requires OneMore(g, h, c) && c.Failure? && Opens(cfg, g, |h|)
    ensures CoolingSince(cfg, g, |h|) && !HalfOpen(cfg, g)
    ensures forall o: nat :: CoolingSince(cfg, g, o) ==> o == |h|
  {
    assert LastOpening(cfg, g, |h|);
    forall o: nat | LastOpening(cfg, g, o)
      ensures o == |h|
    {
      OpeningIsUnique(cfg, g, o, |h|);
    }
  }

  lemma FailureFollows(cfg: Config, g: seq<Call>, h: seq<Call>, c: Call, k: Keys)
    requires OneMore(g, h, c) && c.Failure? && KeysFollow(cfg, h, k) && CountsChain(k, FailuresSince(h))
    ensures KeysFollow(cfg, g, After(cfg, k, c))
  {
    var f := FailuresSince(h) + [c.at];
    var n := SomeLongestChain(f);
    FailureFollowsChain(cfg, k, FailuresSince(h), c.at, n);
    assert g[..|h| + 1] == g && FailuresSince(g) == f by {
      assert g[..|g| - 1] == h;
    }
    GateAfter(cfg, g, h, c);
    if n >= cfg.threshold {
      OpeningFailure(cfg, g, h, c);
    } else {
      forall m: nat | LongestChain(f, m)
        ensures m == n
      {
        LongestUnique(f, m, n);
      }
      forall o: nat
        ensures CoolingSince(cfg, g, o) <==> CoolingSince(cfg, h, o)
        ensures CoolingSince(cfg, g, o) ==> g[o] == h[o]
      {
        CoolingAfter(cfg, g, h, c, o);
      }
      HalfOpenAfter(cfg, g, h, c);
    }
  }

  lemma {:induction false} KeysAlwaysFollow(cfg: Config, h: seq<Call>)
    ensures KeysFollow(cfg, h, AfterAll(cfg, FRESH, h))
    decreases |h|
  {
    if h != [] {
      var c, before := h[|h| - 1], h[..|h| - 1];
      KeysAlwaysFollow(cfg, before);
      CounterRefinesHistory(cfg, before);
      assert before + [c] == h;
      AfterAllSnoc(cfg, FRESH, before, c);
      match c {
        case Query(_) => QueryFollows(cfg, h, before, c, AfterAll(cfg, FRESH, before));
        case Success(_) => SuccessFollows(cfg, h, before, c);
        case Failure(_) => FailureFollows(cfg, h, before, c, AfterAll(cfg, FRESH, before));
      }
    }
  }

  /**
   Over every run, a query is denied exactly when the breaker was opened by a failure that no
   success has followed, and either this failure's cooldown is not over and no query has come after
   it, or one has and another query has already passed the gate.
   */
  lemma AnswerFollowsHistory(cfg: Config, h: seq<Call>, at: Instant)
    ensures Answer(cfg, AfterAll(cfg, FRESH, h), at).1 <==> Denies(cfg, h, at)
  {
    KeysAlwaysFollow(cfg, h);
  }

  /** A failure opens the breaker exactly when it completes or continues a chain that reaches the threshold. */
  lemma FailureOpens(cfg: Config, h: seq<Call>, at: Instant)
    ensures var k, k' := AfterAll(cfg, FRESH, h), AfterAll(cfg, FRESH, h + [Failure(at)]);
            if ChainReaches(FailuresSince(h + [Failure(at)]), cfg.threshold) then
              k'.state == Some("OPEN") && k'.openSince == Some(at)
            else k'.state == k.state && k'.openSince == k.openSince
  {
    var k, f := AfterAll(cfg, FRESH, h), FailuresSince(h) + [at];
    var n := SomeLongestChain(f);
    CounterRefinesHistory(cfg, h);
    FailureFollowsChain(cfg, k, FailuresSince(h), at, n);
    AfterAllSnoc(cfg, FRESH, h, Failure(at));
    assert (h + [Failure(at)])[..|h|] == h;
    forall m: nat | LongestChain(f, m)
      ensures m == n
    {
      LongestUnique(f, m, n);
    }
  }

  lemma OpeningOf(cfg: Config, h: seq<Call>, at: Instant) returns (o: nat)
    requires Denies(cfg, h, at)
    ensures LastOpening(cfg, h, o)
  {
    if HalfOpen(cfg, h) {
      var k: nat;
      o, k :| LastOpening(cfg, h, o) && Ripe(cfg, h, o, k);
    } else {
      o :| CoolingSince(cfg, h, o) && at - h[o].at < cfg.cooldown;
    }
  }

  /**
   Behind every denial there is an unbroken chain of failures that has reached the threshold, with
   no success recorded between it and the query: until then every query is admitted.
   */
  lemma DenialNeedsChain(cfg: Config, h: seq<Call>, at: Instant) returns (j: nat)
    requires Answer(cfg, AfterAll(cfg, FRESH, h), at).1
    ensures 0 < j <= |h| && NoSuccess(h[j..])
    ensures ChainReaches(FailuresSince(h[..j]), cfg.threshold)
  {
    AnswerFollowsHistory(cfg, h, at);
    var o := OpeningOf(cfg, h, at);
    j := o + 1;
    forall k: nat | k < |h[j..]|
      ensures !h[j..][k].Success?
    {
      assert h[j..][k] == h[j + k];
    }
  }

  // ---------------------------------------------------------------- the breaker itself

  class CircuitBreaker {
    const cfg: Config
    var state: Option<string>
    var failures: Option<Counter>
    var openSince: Option<Instant>
    var halfTested: bool
    /** The calls made so far. */
    ghost var history: seq<Call>

    ghost function Stored(): Keys
      reads this
    {
      Keys(state, failures, openSince, halfTested)
    }

    ghost predicate Valid()
      reads this
    {
      Stored() == AfterAll(cfg, FRESH, history)
    }

    constructor (cfg: Config)
      ensures this.cfg == cfg && Stored() == FRESH && Valid() && history == []
    {
      this.cfg := cfg;
      state, failures, openSince, halfTested := None, None, None, false;
      history := [];
    }

    method IsOpen(now: Instant) returns (open: bool)
      requires Valid()
      modifies this
      ensures Valid() && history == old(history) + [Query(now)]
      ensures open <==> Denies(cfg, old(history), now)
      ensures (Stored(), open) == Answer(cfg, old(Stored()), now)
    {
      AnswerFollowsHistory(cfg, history, now);
      AfterAllSnoc(cfg, FRESH, history, Query(now));
      history := history + [Query(now)];
      if state.None? {
        return false;
      }
      if state.value == "OPEN" {
        var since := if openSince.Some? then openSince.value else 0;
        if now - since >= cfg.cooldown {
          state := Some("HALF_OPEN");
          return false;
        }
        return true;
      }
      if state.value == "HALF_OPEN" {
        var tested := !halfTested;
        halfTested := true;
        return !tested;
      }
      return false;
    }

    method RecordSuccess(ghost now: Instant)
      requires Valid()
      modifies this
      ensures Valid() && Stored() == FRESH && history == old(history) + [Success(now)]
    {
      AfterAllSnoc(cfg, FRESH, history, Success(now));
      state, failures, openSince, halfTested := None, None, None, false;
      history := history + [Success(now)];
    }

    method RecordFailure(now: Instant)
      requires Valid()
      modifies this
      ensures Valid() && history == old(history) + [Failure(now)]
      ensures Stored() == Fail(cfg, old(Stored()), now)
      ensures if ChainReaches(FailuresSince(history), cfg.threshold) then
                state == Some("OPEN") && openSince == Some(now)
              else state == old(state) && openSince == old(openSince)
    {
      FailureOpens(cfg, history, now);
      AfterAllSnoc(cfg, FRESH, history, Failure(now));
      var count := 1;
      if failures.Some? && Alive(failures.value.deadline, now) {
        count := failures.value.count + 1;
      }
      failures := Some(Counter(count, now + FAILURE_TTL));
      if count >= cfg.threshold {
        state := Some("OPEN");
        openSince := Some(now);
      }
      history := history + [Failure(now)];
    }
  }
}
