/**
 The delivery engine: a self-recursive retry machine over (attempt, rate_limit_waits) that asks
 the circuit breaker and two rate limiters before each HTTP request, writes one audit row per
 attempt, sleeps between attempts, and ends in a dead letter when its retries are used up.

 One delivery is first described as a machine that consumes the answers of its surroundings, so
 that everything proved about it holds whatever other deliveries do in between; the engine's
 method is then shown to run this machine against real breaker and limiter objects.
 */
module Delivery {
  import opened Common
  import CB = CircuitBreaker
  import RL = RateLimiter

  const MAX_RATE_LIMIT_WAITS: nat := 5

  datatype Route = Route(id: string, url: string, rpm: Option<int>, maxRetries: int, backoffMs: int)

  /** A route together with the breaker's cooldown, in seconds. */
  datatype Config = Config(route: Route, cooldownS: int)

  datatype Outcome =
    | BreakerOpen
    | RouteLimited
    | Abandoned
    | Answered(status: nat)
    | Failed(message: string)

  /** A DeliveryAttempt row. */
  datatype Row = Row(attempt: nat, outcome: Outcome)

  /** What became of a dead letter: a raised error may or may not have left it in the topic. */
  datatype Letter = NoProducer | Published | SendRaised(appended: bool)

  datatype Phase = AtBreaker | AtRouteLimit | AtDestLimit | AtSend | AtReport | Done

  datatype Answer =
    | Breaker(open: bool)
    | RouteLimit(allowed: bool)
    | DestLimit(allowed: bool)
    | Http(outcome: Outcome)
    | Report(jitter: real, letter: Letter)

  /** A backoff sleep, in milliseconds, and the attempt it followed. */
  datatype Delay = Delay(attempt: nat, ms: real)

  datatype Progress = Progress(
    phase: Phase, attempt: nat, waits: nat, rows: seq<Row>, letter: Option<Letter>,
    slept: real, delays: seq<Delay>, calls: nat)

  const START := Progress(AtBreaker, 0, 0, [], None, 0.0, [], 1)

  // ---------------------------------------------------------------- classification

  function ErrorOf(o: Outcome): Option<string> {
    match o
    case BreakerOpen => Some("circuit_breaker_open")
    case RouteLimited => Some("route_rate_limited")
    case Abandoned => Some("rate_limited_abandoned")
    case Answered(_) => None
    case Failed(message) => Some(message)
  }

  function StatusOf(o: Outcome): Option<nat> {
    if o.Answered? then Some(o.status) else None
  }

  predicate IsSuccess(o: Outcome) { o.Answered? && 200 <= o.status < 300 }

  predicate IsClientError(o: Outcome) { o.Answered? && 400 <= o.status < 500 }

  predicate IsServerFailure(o: Outcome) { o.Failed? || (o.Answered? && o.status >= 500) }

  /** Outcomes after which the delivery goes on to a further attempt, if one is left. */
  predicate GoesOn(o: Outcome) { o.BreakerOpen? || IsServerFailure(o) }

  function Pow2(n: nat): nat { if n == 0 then 1 else 2 * Pow2(n - 1) }

  function BaseDelay(route: Route, attempt: nat): real { (route.backoffMs * Pow2(attempt)) as real }

  /** asyncio.sleep of a negative amount returns at once. */
  function Sleep(ms: real): real { if ms < 0.0 then 0.0 else ms }

  /** random.uniform(0, base * 0.5) can have drawn this jitter. */
  predicate Drawn(base: real, jitter: real) {
    if base >= 0.0 then 0.0 <= jitter <= 0.5 * base else 0.5 * base <= jitter <= 0.0
  }

  // ---------------------------------------------------------------- the machine

  predicate Fits(cfg: Config, d: Progress, a: Answer) {
    match d.phase
    case AtBreaker => a.Breaker?
    case AtRouteLimit => a.RouteLimit?
    case AtDestLimit => a.DestLimit?
    case AtSend => a.Http? && (a.outcome.Answered? || a.outcome.Failed?)
    case AtReport => a.Report? && d.rows != [] && Drawn(BaseDelay(cfg.route, d.attempt), a.jitter)
    case Done => false
  }

  function Logged(d: Progress, o: Outcome): Progress {
    d.(rows := d.rows + [Row(d.attempt, o)])
  }

  /** The recursive call for the next attempt, after a sleep. */
  function Again(d: Progress, ms: real): Progress {
    d.(phase := AtBreaker, attempt := d.attempt + 1, waits := 0, slept := d.slept + Sleep(ms), calls := d.calls + 1)
  }

  function Reported(cfg: Config, d: Progress, o: Outcome, jitter: real, letter: Letter): Progress {
    if IsSuccess(o) || IsClientError(o) || !IsServerFailure(o) then d.(phase := Done)
    else if d.attempt + 1 < cfg.route.maxRetries then
      var ms := BaseDelay(cfg.route, d.attempt) + jitter;
      Again(d, ms).(delays := d.delays + [Delay(d.attempt, ms)])
    else d.(phase := Done, letter := Some(letter))
  }

  function Next(cfg: Config, d: Progress, a: Answer): Progress
    requires Fits(cfg, d, a)
  {
    match d.phase
    case AtBreaker =>
      if !a.open then d.(phase := if cfg.route.rpm.Some? then AtRouteLimit else AtDestLimit)
      else if d.attempt + 1 < cfg.route.maxRetries then Again(Logged(d, BreakerOpen), 1000.0 * cfg.cooldownS as real)
      else Logged(d, BreakerOpen).(phase := Done)
    case AtRouteLimit =>
      if a.allowed then d.(phase := AtDestLimit) else Logged(d, RouteLimited).(phase := Done)
    case AtDestLimit =>
      if a.allowed then d.(phase := AtSend)
      else if d.waits >= MAX_RATE_LIMIT_WAITS then Logged(d, Abandoned).(phase := Done)
      else d.(phase := AtBreaker, waits := d.waits + 1, slept := d.slept + Sleep(1000.0), calls := d.calls + 1)
    case AtSend => Logged(d, a.outcome).(phase := AtReport)
    case AtReport => Reported(cfg, d, d.rows[|d.rows| - 1].outcome, a.jitter, a.letter)
  }

  predicate Legal(cfg: Config, answers: seq<Answer>)
    decreases |answers|, 0
  {
    answers == [] ||
    (Legal(cfg, answers[..|answers| - 1]) && Fits(cfg, Run(cfg, answers[..|answers| - 1]), answers[|answers| - 1]))
  }

  function Run(cfg: Config, answers: seq<Answer>): Progress
    requires Legal(cfg, answers)
    decreases |answers|, 1
  {
    if answers == [] then START
    else Next(cfg, Run(cfg, answers[..|answers| - 1]), answers[|answers| - 1])
  }

  // ---------------------------------------------------------------- the audit trail

  /** The number of attempts a delivery may make: at least one, whatever max_retries says. */
  function Attempts(cfg: Config): nat { Max(1, cfg.route.maxRetries) }

  /** Rows are numbered 0, 1, 2, ... and all but possibly the last one are reasons to go on. */
  ghost predicate Trail(rows: seq<Row>) {
    && (forall i :: 0 <= i < |rows| ==> rows[i].attempt == i)
    && (forall i :: 0 <= i < |rows| - 1 ==> GoesOn(rows[i].outcome))
  }

  ghost predicate AuditInv(cfg: Config, d: Progress) {
    && Trail(d.rows) && d.attempt < Attempts(cfg) && d.waits <= MAX_RATE_LIMIT_WAITS
    && (d.phase.AtBreaker? || d.phase.AtRouteLimit? || d.phase.AtDestLimit? || d.phase.AtSend? ==>
          |d.rows| == d.attempt && d.letter.None? && forall i :: 0 <= i < |d.rows| ==> GoesOn(d.rows[i].outcome))
    && (d.phase.AtReport? || d.phase.Done? ==> |d.rows| == d.attempt + 1)
    && (d.phase.AtReport? ==> d.letter.None? && var o := d.rows[d.attempt].outcome; o.Answered? || o.Failed?)
    && (d.phase.Done? ==>
          var o := d.rows[d.attempt].outcome;
          && (GoesOn(o) ==> d.attempt + 1 == Attempts(cfg))
          && (d.letter.Some? <==> IsServerFailure(o)))
  }

  lemma {:induction false} AuditAlways(cfg: Config, answers: seq<Answer>)
    requires Legal(cfg, answers)
    ensures AuditInv(cfg, Run(cfg, answers))
    decreases |answers|
  {
    if answers != [] {
      AuditAlways(cfg, answers[..|answers| - 1]);
    }
  }

  predicate Left(letter: Letter) { letter == Published || letter == SendRaised(true) }

  lemma WithinBounds(cfg: Config, answers: seq<Answer>)
    requires Legal(cfg, answers)
    ensures Run(cfg, answers).attempt < Attempts(cfg) && Run(cfg, answers).waits <= MAX_RATE_LIMIT_WAITS
  {
    AuditAlways(cfg, answers);
  }

  /** How many copies of the dead letter the delivery left in the topic. */
  function DeadLetters(d: Progress): nat {
    if d.letter.Some? && Left(d.letter.value) then 1 else 0
  }

  /**
   A finished delivery wrote exactly one row for each attempt 0..k in order, k below
   max(1, max_retries); every row but the last is breaker-open, transport error or 5xx; a last row
   of that kind means the attempts are used up; and the dead-letter topic is tried exactly when
   the last row is a transport error or 5xx.
   */
  lemma FinishedAudit(cfg: Config, answers: seq<Answer>)
    requires Legal(cfg, answers) && Run(cfg, answers).phase.Done?
    ensures var d := Run(cfg, answers);
            && 0 < |d.rows| <= Max(1, cfg.route.maxRetries)
            && (forall i :: 0 <= i < |d.rows| ==> d.rows[i].attempt == i)
            && (forall i :: 0 <= i < |d.rows| - 1 ==>
                  var o := d.rows[i].outcome; o.BreakerOpen? || o.Failed? || (o.Answered? && o.status >= 500))
            && var last := d.rows[|d.rows| - 1].outcome;
            && (last.BreakerOpen? || last.Failed? || (last.Answered? && last.status >= 500) ==>
                  |d.rows| == Max(1, cfg.route.maxRetries))
            && (d.letter.Some? <==> last.Failed? || (last.Answered? && last.status >= 500))
            && DeadLetters(d) == (if d.letter in {Some(Published), Some(SendRaised(true))} then 1 else 0)
  {
    AuditAlways(cfg, answers);
  }

  /** A row that the dead-letter listing looks for: an error text, or a status of 500 and above. */
  predicate FailingRow(r: Row) {
    ErrorOf(r.outcome).Some? || (StatusOf(r.outcome).Some? && StatusOf(r.outcome).value >= 500)
  }

  /** A finished delivery ends in a failing row unless the destination answered below 500. */
  lemma FailureLeavesTrace(cfg: Config, answers: seq<Answer>)
    requires Legal(cfg, answers) && Run(cfg, answers).phase.Done?
    ensures var d := Run(cfg, answers);
            && d.rows != []
            && (FailingRow(d.rows[|d.rows| - 1]) <==>
                !(d.rows[|d.rows| - 1].outcome.Answered? && d.rows[|d.rows| - 1].outcome.status < 500))
            && (d.letter.Some? ==> FailingRow(d.rows[|d.rows| - 1]))
  {
    AuditAlways(cfg, answers);
  }

  // ---------------------------------------------------------------- the answers behind the rows

  /** Denials by the destination's limiter since the present attempt began, after one more answer. */
  function DenialsAfter(a: Answer, before: nat): nat {
    match a
    case Breaker(open) => if open then 0 else before
    case DestLimit(allowed) => if allowed then before else before + 1
    case Report(_, _) => 0
    case _ => before
  }

  function Denials(answers: seq<Answer>): nat {
    if answers == [] then 0 else DenialsAfter(answers[|answers| - 1], Denials(answers[..|answers| - 1]))
  }

  /** What an answer leaves on record, when it brings the denials of the attempt to this number. */
  function OutcomeOf(a: Answer, denials: nat): seq<Outcome> {
    match a
    case Breaker(open) => if open then [BreakerOpen] else []
    case RouteLimit(allowed) => if allowed then [] else [RouteLimited]
    case DestLimit(allowed) => if !allowed && denials == 6 then [Abandoned] else []
    case Http(outcome) => [outcome]
    case Report(_, _) => []
  }

  function Outcomes(answers: seq<Answer>): seq<Outcome> {
    if answers == [] then []
    else Outcomes(answers[..|answers| - 1]) + OutcomeOf(answers[|answers| - 1], Denials(answers))
  }

  /** This answer ends a delivery that has then left `n` rows, the last of them `o`. */
  predicate Ends(cfg: Config, a: Answer, denials: nat, n: nat, o: Outcome) {
    match a
    case Breaker(open) => open && n >= cfg.route.maxRetries
    case RouteLimit(allowed) => !allowed
    case DestLimit(allowed) => !allowed && denials == 6
    case Http(_) => false
    case Report(_, _) => !(o.Failed? || (o.Answered? && o.status >= 500)) || n >= cfg.route.maxRetries
  }

  ghost predicate RowsAre(rows: seq<Row>, outcomes: seq<Outcome>) {
    |rows| == |outcomes| && forall i :: 0 <= i < |rows| ==> rows[i].outcome == outcomes[i]
  }

  /** One answer more adds the row it leaves. */
  ghost predicate Adds(before: seq<Row>, after: seq<Row>, outcomes: seq<Outcome>) {
    && |after| == |before| + |outcomes| && before <= after
    && forall i :: 0 <= i < |outcomes| ==> after[|before| + i].outcome == outcomes[i]
  }

  lemma RowsGrow(before: seq<Row>, after: seq<Row>, outcomes: seq<Outcome>, more: seq<Outcome>)
    requires RowsAre(before, outcomes) && Adds(before, after, more)
    ensures RowsAre(after, outcomes + more)
  {
    forall i | 0 <= i < |after|
      ensures after[i].outcome == (outcomes + more)[i]
    {
      if i >= |before| { assert after[|before| + (i - |before|)].outcome == more[i - |before|]; }
    }
  }

  lemma StepRecords(cfg: Config, d: Progress, a: Answer)
    requires AuditInv(cfg, d) && Fits(cfg, d, a)
    ensures var e, denials := Next(cfg, d, a), DenialsAfter(a, d.waits);
            && Adds(d.rows, e.rows, OutcomeOf(a, denials))
            && (!e.phase.Done? ==> e.waits == denials)
  {
  }

  lemma StepEnds(cfg: Config, d: Progress, a: Answer)
    requires AuditInv(cfg, d) && Fits(cfg, d, a)
    ensures var e := Next(cfg, d, a);
            e.phase.Done? <==>
              e.rows != [] && Ends(cfg, a, DenialsAfter(a, d.waits), |e.rows|, e.rows[|e.rows| - 1].outcome)
  {
  }

  lemma NeverAfterDone(cfg: Config, d: Progress, a: Answer)
    requires Fits(cfg, d, a)
    ensures !d.phase.Done?
  {
  }

  /**
   The rows are, numbered in order, the breaker's and the route limit's denials, the sixth denial of
   an attempt by the destination's limit, and the outcomes of the requests; and the delivery ends
   exactly with a route-limit denial, a sixth denial, a report of anything but a transport error or
   5xx, or an open breaker or failure at the last attempt.
   */
  lemma {:induction false} RowsFollowAnswers(cfg: Config, answers: seq<Answer>)
    requires Legal(cfg, answers)
    ensures var d := Run(cfg, answers);
            && (forall i :: 0 <= i < |d.rows| ==> d.rows[i].attempt == i) && RowsAre(d.rows, Outcomes(answers))
            && (!d.phase.Done? ==> d.waits == Denials(answers))
            && (d.phase.Done? <==>
                  && answers != [] && d.rows != []
                  && Ends(cfg, answers[|answers| - 1], Denials(answers), |d.rows|, d.rows[|d.rows| - 1].outcome))
    decreases |answers|
  {
    AuditAlways(cfg, answers);
    if answers != [] {
      var p, a := answers[..|answers| - 1], answers[|answers| - 1];
      var d := Run(cfg, p);
      RowsFollowAnswers(cfg, p);
      AuditAlways(cfg, p);
      NeverAfterDone(cfg, d, a);
      StepRecords(cfg, d, a);
      StepEnds(cfg, d, a);
      RowsGrow(d.rows, Next(cfg, d, a).rows, Outcomes(p), OutcomeOf(a, Denials(answers)));
    }
  }

  lemma {:induction false} LegalPrefix(cfg: Config, answers: seq<Answer>, n: nat)
    requires Legal(cfg, answers) && n <= |answers|
    ensures Legal(cfg, answers[..n])
    decreases |answers|
  {
    if n < |answers| {
      LegalPrefix(cfg, answers[..|answers| - 1], n);
      assert answers[..|answers| - 1][..n] == answers[..n];
    } else {
      assert answers[..n] == answers;
    }
  }

  /** The phase in which answer `i` finds the delivery. */
  function PhaseAt(cfg: Config, answers: seq<Answer>, i: nat): Phase
    requires Legal(cfg, answers) && i <= |answers|
  {
    LegalPrefix(cfg, answers, i);
    Run(cfg, answers[..i]).phase
  }

  lemma PhaseFits(cfg: Config, answers: seq<Answer>, i: nat)
    requires Legal(cfg, answers) && i < |answers|
    ensures answers[i].Http? ==> PhaseAt(cfg, answers, i).AtSend?
  {
    LegalPrefix(cfg, answers, i + 1);
    assert answers[..i + 1][..i] == answers[..i];
  }

  lemma PhaseBefore(cfg: Config, d: Progress, a: Answer)
    requires Fits(cfg, d, a)
    ensures match Next(cfg, d, a).phase
            case AtRouteLimit => d.phase.AtBreaker? && a == Breaker(false) && cfg.route.rpm.Some?
            case AtDestLimit =>
              || (d.phase.AtBreaker? && a == Breaker(false) && cfg.route.rpm.None?)
              || (d.phase.AtRouteLimit? && a == RouteLimit(true))
            case AtSend => d.phase.AtDestLimit? && a == DestLimit(true)
            case _ => true
  {
  }

  /** The answer that led to a phase, and the phase before it. */
  lemma CameFrom(cfg: Config, answers: seq<Answer>, i: nat)
    requires Legal(cfg, answers) && i <= |answers|
    ensures match PhaseAt(cfg, answers, i)
            case AtRouteLimit => i > 0 && cfg.route.rpm.Some? && answers[i - 1] == Breaker(false)
            case AtDestLimit =>
              && i > 0 && answers[i - 1] == (if cfg.route.rpm.Some? then RouteLimit(true) else Breaker(false))
              && (cfg.route.rpm.Some? ==> PhaseAt(cfg, answers, i - 1).AtRouteLimit?)
            case AtSend => i > 0 && answers[i - 1] == DestLimit(true) && PhaseAt(cfg, answers, i - 1).AtDestLimit?
            case _ => true
    decreases i
  {
    LegalPrefix(cfg, answers, i);
    if i > 0 {
      CameFrom(cfg, answers, i - 1);
      LegalPrefix(cfg, answers, i - 1);
      assert answers[..i][..i - 1] == answers[..i - 1];
      PhaseBefore(cfg, Run(cfg, answers[..i - 1]), answers[i - 1]);
    }
  }

  /**
   The last answers before a request are the breaker's admission, then the route limit's if the
   route has one, then the destination limit's.
   */
  lemma RequestIsAdmitted(cfg: Config, answers: seq<Answer>, i: nat)
    requires Legal(cfg, answers) && i < |answers| && answers[i].Http?
    ensures i >= 2 && answers[i - 1] == DestLimit(true)
    ensures cfg.route.rpm.None? ==> answers[i - 2] == Breaker(false)
    ensures cfg.route.rpm.Some? ==> i >= 3 && answers[i - 2] == RouteLimit(true) && answers[i - 3] == Breaker(false)
  {
    PhaseFits(cfg, answers, i);
    CameFrom(cfg, answers, i);
    CameFrom(cfg, answers, i - 1);
    if cfg.route.rpm.Some? {
      CameFrom(cfg, answers, i - 2);
    }
  }

  /** A delivery that has a request to report on got its outcome as the last answer. */
  lemma ReportsLastAnswer(cfg: Config, answers: seq<Answer>)
    requires Legal(cfg, answers) && Run(cfg, answers).phase.AtReport?
    ensures var rows := Run(cfg, answers).rows;
            answers != [] && rows != [] && answers[|answers| - 1] == Http(rows[|rows| - 1].outcome)
  {
  }

  // ---------------------------------------------------------------- termination and time

  function PhaseRank(p: Phase): nat {
    match p
    case AtBreaker => 5
    case AtRouteLimit => 4
    case AtDestLimit => 3
    case AtSend => 2
    case AtReport => 1
    case Done => 0
  }

  /** Lexicographic in (attempts left, waits left, phase), as one number. */
  function Measure(cfg: Config, d: Progress): int {
    6 * (6 * (Attempts(cfg) - d.attempt) - d.waits) + PhaseRank(d.phase)
  }

  lemma StepDescends(cfg: Config, d: Progress, a: Answer)
    requires AuditInv(cfg, d) && Fits(cfg, d, a)
    ensures Measure(cfg, Next(cfg, d, a)) < Measure(cfg, d)
  {
  }

  /** Whatever the answers, a delivery takes at most 36 * max(1, max_retries) + 5 steps. */
  lemma {:induction false} RunsAreFinite(cfg: Config, answers: seq<Answer>)
    requires Legal(cfg, answers)
    ensures |answers| + Measure(cfg, Run(cfg, answers)) <= Measure(cfg, START)
    ensures |answers| <= 36 * Attempts(cfg) + 5
    decreases |answers|
  {
    AuditAlways(cfg, answers);
    if answers != [] {
      var p := answers[..|answers| - 1];
      AuditAlways(cfg, p);
      RunsAreFinite(cfg, p);
      StepDescends(cfg, Run(cfg, p), answers[|answers| - 1]);
    }
  }

  function RealMax(a: real, b: real): real { if a < b then b else a }

  /** The most the sleeps after attempts 0..n-1 can add up to, limiter waits apart. */
  function Budget(cfg: Config, n: nat): real {
    if n == 0 then 0.0
    else Budget(cfg, n - 1) + Sleep(RealMax(1.5 * BaseDelay(cfg.route, n - 1), 1000.0 * cfg.cooldownS as real))
  }

  ghost predicate TimeInv(cfg: Config, d: Progress) {
    && d.slept <= Budget(cfg, d.attempt) + 1000.0 * (5 * d.attempt + d.waits) as real
    && d.calls <= 6 * d.attempt + d.waits + 1
  }

  lemma AgainInTime(cfg: Config, d: Progress, ms: real)
    requires TimeInv(cfg, d) && d.waits <= MAX_RATE_LIMIT_WAITS
    requires Sleep(ms) <= Sleep(RealMax(1.5 * BaseDelay(cfg.route, d.attempt), 1000.0 * cfg.cooldownS as real))
    ensures TimeInv(cfg, Again(d, ms))
  {
  }

  lemma {:induction false} TimeAlways(cfg: Config, answers: seq<Answer>)
    requires Legal(cfg, answers)
    ensures TimeInv(cfg, Run(cfg, answers))
    decreases |answers|
  {
    if answers != [] {
      var p := answers[..|answers| - 1];
      var d, a := Run(cfg, p), answers[|answers| - 1];
      TimeAlways(cfg, p);
      AuditAlways(cfg, p);
      if d.phase.AtBreaker? && a.open {
        AgainInTime(cfg, Logged(d, BreakerOpen), 1000.0 * cfg.cooldownS as real);
      } else if d.phase.AtReport? {
        AgainInTime(cfg, d, BaseDelay(cfg.route, d.attempt) + a.jitter);
      }
    }
  }

  lemma {:induction false} BudgetMonotone(cfg: Config, m: nat, n: nat)
    requires m <= n
    ensures Budget(cfg, m) <= Budget(cfg, n)
    decreases n
  {
    if m < n {
      BudgetMonotone(cfg, m, n - 1);
    }
  }

  /**
   With N = max(1, max_retries), a delivery calls itself at most 6 N times in all and asks for at
   most sum over a < N - 1 of max(1.5 times the base delay of a, cooldown), plus five seconds per attempt.
   */
  lemma TimeBound(cfg: Config, answers: seq<Answer>)
    requires Legal(cfg, answers)
    ensures Run(cfg, answers).calls <= 6 * Attempts(cfg)
    ensures Run(cfg, answers).slept <= Budget(cfg, Attempts(cfg) - 1) + 5000.0 * Attempts(cfg) as real
  {
    TimeAlways(cfg, answers);
    AuditAlways(cfg, answers);
    BudgetMonotone(cfg, Run(cfg, answers).attempt, Attempts(cfg) - 1);
  }

  ghost predicate DelaysInv(cfg: Config, d: Progress) {
    && (forall i :: 0 <= i < |d.delays| ==>
          d.delays[i].attempt < d.attempt
          && var base := BaseDelay(cfg.route, d.delays[i].attempt);
          base <= d.delays[i].ms <= 1.5 * base)
    && (forall i, j :: 0 <= i < j < |d.delays| ==> d.delays[i].attempt < d.delays[j].attempt)
  }

  lemma {:induction false} PowGrows(m: nat, n: nat)
    requires m < n
    ensures Pow2(n) >= 2 * Pow2(m)
    decreases n
  {
    if m < n - 1 {
      PowGrows(m, n - 1);
    }
  }

  lemma BaseGrows(route: Route, m: nat, n: nat)
    requires m < n && route.backoffMs >= 0
    ensures BaseDelay(route, n) >= 2.0 * BaseDelay(route, m) >= 0.0
  {
    PowGrows(m, n);
    var b := route.backoffMs;
    var extra := Pow2(n) - 2 * Pow2(m);
    assert b * extra >= 0;
    assert b * Pow2(n) == 2 * (b * Pow2(m)) + b * extra;
  }

  lemma {:induction false} DelaysAlways(cfg: Config, answers: seq<Answer>)
    requires Legal(cfg, answers) && cfg.route.backoffMs >= 0
    ensures DelaysInv(cfg, Run(cfg, answers))
    decreases |answers|
  {
    if answers != [] {
      var p := answers[..|answers| - 1];
      var d, a := Run(cfg, p), answers[|answers| - 1];
      DelaysAlways(cfg, p);
      if d.phase.AtReport? {
        assert cfg.route.backoffMs * Pow2(d.attempt) >= 0;
      }
    }
  }

  /** With a negative backoff no sleep takes any time. */
  lemma {:induction false} NoDelayWhenNegative(cfg: Config, answers: seq<Answer>)
    requires Legal(cfg, answers) && cfg.route.backoffMs < 0
    ensures forall i :: 0 <= i < |Run(cfg, answers).delays| ==> Run(cfg, answers).delays[i].ms <= 0.0
    decreases |answers|
  {
    if answers != [] {
      var p := answers[..|answers| - 1];
      var d := Run(cfg, p);
      NoDelayWhenNegative(cfg, p);
      if d.phase.AtReport? {
        PowPositive(d.attempt);
        assert cfg.route.backoffMs * Pow2(d.attempt) <= 0;
      }
    }
  }

  lemma {:induction false} PowPositive(n: nat)
    ensures Pow2(n) > 0
  {
    if n > 0 { PowPositive(n - 1); }
  }

  /** Backoff sleeps never shrink from one to the next, whatever the backoff and the jitter. */
  lemma BackoffNeverShrinks(cfg: Config, answers: seq<Answer>, i: nat, j: nat)
    requires Legal(cfg, answers)
    requires i < j < |Run(cfg, answers).delays|
    ensures Sleep(Run(cfg, answers).delays[i].ms) <= Sleep(Run(cfg, answers).delays[j].ms)
  {
    var ds := Run(cfg, answers).delays;
    if cfg.route.backoffMs < 0 {
      NoDelayWhenNegative(cfg, answers);
    } else {
      DelaysAlways(cfg, answers);
      BaseGrows(cfg.route, ds[i].attempt, ds[j].attempt);
    }
  }

  /** Cooldown sleeps after the breaker-open rows. */
  function CooldownSleeps(cfg: Config, rows: seq<Row>): real {
    if rows == [] then 0.0
    else
      CooldownSleeps(cfg, rows[..|rows| - 1])
      + (if rows[|rows| - 1].outcome.BreakerOpen? then Sleep(1000.0 * cfg.cooldownS as real) else 0.0)
  }

  function BackoffSleeps(delays: seq<Delay>): real {
    if delays == [] then 0.0 else BackoffSleeps(delays[..|delays| - 1]) + Sleep(delays[|delays| - 1].ms)
  }

  function OpenRows(rows: seq<Row>): nat {
    if rows == [] then 0 else OpenRows(rows[..|rows| - 1]) + (if rows[|rows| - 1].outcome.BreakerOpen? then 1 else 0)
  }

  ghost predicate SleepInv(cfg: Config, d: Progress) {
    && d.attempt <= |d.rows| && d.calls >= 1 + d.attempt
    && d.slept == CooldownSleeps(cfg, d.rows[..d.attempt]) + BackoffSleeps(d.delays)
      + 1000.0 * (d.calls - 1 - d.attempt) as real
    && |d.delays| + OpenRows(d.rows[..d.attempt]) == d.attempt
  }

  /** Steps that stay within an attempt sleep not at all, or one second with one more call. */
  lemma SleepWithin(cfg: Config, d: Progress, e: Progress)
    requires SleepInv(cfg, d)
    requires e.attempt == d.attempt && e.delays == d.delays && d.rows <= e.rows
    requires (e.slept == d.slept && e.calls == d.calls) || (e.slept == d.slept + 1000.0 && e.calls == d.calls + 1)
    ensures SleepInv(cfg, e)
  {
    assert e.rows[..d.attempt] == d.rows[..d.attempt];
  }

  /** Steps to the next attempt sleep one cooldown or one backoff, as the row they leave says. */
  lemma SleepBetween(cfg: Config, d: Progress, e: Progress, row: Row)
    requires SleepInv(cfg, d)
    requires e.attempt == d.attempt + 1 && e.calls == d.calls + 1
    requires e.rows == d.rows[..d.attempt] + [row]
    requires row.outcome.BreakerOpen? ==>
             e.delays == d.delays && e.slept == d.slept + Sleep(1000.0 * cfg.cooldownS as real)
    requires !row.outcome.BreakerOpen? ==> exists x :: e.delays == d.delays + [x] && e.slept == d.slept + Sleep(x.ms)
    ensures SleepInv(cfg, e)
  {
    assert e.rows[..e.attempt] == e.rows;
    assert e.rows[..|e.rows| - 1] == d.rows[..d.attempt];
    if !row.outcome.BreakerOpen? {
      assert e.delays[..|e.delays| - 1] == d.delays;
    }
  }

  lemma SleepStep(cfg: Config, d: Progress, a: Answer)
    requires AuditInv(cfg, d) && SleepInv(cfg, d) && Fits(cfg, d, a)
    ensures SleepInv(cfg, Next(cfg, d, a))
  {
    var e := Next(cfg, d, a);
    if e.attempt == d.attempt {
      SleepWithin(cfg, d, e);
    } else {
      assert e.rows == d.rows[..d.attempt] + [e.rows[d.attempt]];
      if d.phase.AtReport? {
        var ms := BaseDelay(cfg.route, d.attempt) + a.jitter;
        assert e.delays == d.delays + [Delay(d.attempt, ms)] && e.slept == d.slept + Sleep(ms);
      }
      SleepBetween(cfg, d, e, e.rows[d.attempt]);
    }
  }

  /**
   The sleep asked for is exactly one cooldown per breaker-open row that was followed by another
   attempt, the drawn backoff per failed request that was, and one second per wait for the
   destination limiter; every attempt but the last is of one of the first two kinds.
   */
  lemma {:induction false} SleepAccount(cfg: Config, answers: seq<Answer>)
    requires Legal(cfg, answers)
    ensures SleepInv(cfg, Run(cfg, answers))
    ensures var d := Run(cfg, answers);
            d.slept == CooldownSleeps(cfg, d.rows[..d.attempt]) + BackoffSleeps(d.delays)
                       + 1000.0 * (d.calls - 1 - d.attempt) as real
    decreases |answers|
  {
    if answers != [] {
      var p := answers[..|answers| - 1];
      AuditAlways(cfg, p);
      SleepAccount(cfg, p);
      SleepStep(cfg, Run(cfg, p), answers[|answers| - 1]);
    }
  }

  // ---------------------------------------------------------------- the backoff in closed form

  /** The base delays of attempts 0..n-1 together. */
  function BaseSum(route: Route, n: nat): real {
    if n == 0 then 0.0 else BaseSum(route, n - 1) + BaseDelay(route, n - 1)
  }

  /** The schedule doubles from the configured backoff on. */
  lemma {:induction false} BackoffDoubles(route: Route, n: nat)
    ensures BaseDelay(route, n) == route.backoffMs as real + BaseSum(route, n)
  {
    if n > 0 {
      BackoffDoubles(route, n - 1);
      assert route.backoffMs * Pow2(n) == 2 * (route.backoffMs * Pow2(n - 1));
    }
  }

  lemma BaseSign(route: Route, n: nat)
    ensures route.backoffMs >= 0 ==> BaseDelay(route, n) >= 0.0
    ensures route.backoffMs < 0 ==> BaseDelay(route, n) < 0.0
  {
    PowPositive(n);
    if route.backoffMs >= 0 {
      assert route.backoffMs * Pow2(n) >= 0;
    } else {
      assert route.backoffMs * Pow2(n) < 0;
    }
  }

  lemma {:induction false} SumSign(route: Route, m: nat, n: nat)
    requires m <= n
    ensures if route.backoffMs >= 0 then 0.0 <= BaseSum(route, m) <= BaseSum(route, n) else BaseSum(route, n) <= 0.0
    decreases n
  {
    if n > 0 {
      BaseSign(route, n - 1);
      SumSign(route, if m < n then m else n - 1, n - 1);
    }
  }

  ghost predicate BackoffInv(cfg: Config, d: Progress) {
    && |d.delays| <= d.attempt
    && BackoffSleeps(d.delays) <= Sleep(1.5 * BaseSum(cfg.route, d.attempt))
    && (|d.delays| == d.attempt ==> Sleep(BaseSum(cfg.route, d.attempt)) <= BackoffSleeps(d.delays))
  }

  /** The sleep after one more attempt, within and above what its base delay asks for. */
  lemma BackoffGrows(cfg: Config, n: nat, before: real, ms: real)
    requires var base := BaseDelay(cfg.route, n); ms == base || Drawn(base, ms - base)
    requires before <= Sleep(1.5 * BaseSum(cfg.route, n))
    ensures before <= Sleep(1.5 * BaseSum(cfg.route, n + 1))
    ensures before + Sleep(ms) <= Sleep(1.5 * BaseSum(cfg.route, n + 1))
    ensures Sleep(BaseSum(cfg.route, n)) <= before ==> Sleep(BaseSum(cfg.route, n + 1)) <= before + Sleep(ms)
  {
    SumSign(cfg.route, n, n + 1);
    SumSign(cfg.route, n, n);
    BaseSign(cfg.route, n);
  }

  /** A step leaves attempt and delays alone, or starts an attempt with or without a backoff before it. */
  lemma DelaysStep(cfg: Config, d: Progress, a: Answer) returns (jitter: real)
    requires Fits(cfg, d, a)
    ensures var e, base := Next(cfg, d, a), BaseDelay(cfg.route, d.attempt);
            || (e.attempt == d.attempt && e.delays == d.delays)
            || (e.attempt == d.attempt + 1 && e.delays == d.delays)
            || (e.attempt == d.attempt + 1 && Drawn(base, jitter)
                && e.delays == d.delays + [Delay(d.attempt, base + jitter)])
  {
    jitter := if d.phase.AtReport? then a.jitter else 0.0;
  }

  lemma BackoffMoves(cfg: Config, d: Progress, e: Progress, jitter: real)
    requires BackoffInv(cfg, d) && e.attempt == d.attempt + 1
    requires var base := BaseDelay(cfg.route, d.attempt);
             || e.delays == d.delays
             || (Drawn(base, jitter) && e.delays == d.delays + [Delay(d.attempt, base + jitter)])
    ensures BackoffInv(cfg, e)
  {
    var base := BaseDelay(cfg.route, d.attempt);
    if e.delays == d.delays {
      BackoffGrows(cfg, d.attempt, BackoffSleeps(d.delays), base);
    } else {
      BackoffGrows(cfg, d.attempt, BackoffSleeps(d.delays), base + jitter);
      assert e.delays[..|d.delays|] == d.delays;
    }
  }

  lemma BackoffStep(cfg: Config, d: Progress, a: Answer)
    requires BackoffInv(cfg, d) && Fits(cfg, d, a)
    ensures BackoffInv(cfg, Next(cfg, d, a))
  {
    var jitter := DelaysStep(cfg, d, a);
    if Next(cfg, d, a).attempt != d.attempt {
      BackoffMoves(cfg, d, Next(cfg, d, a), jitter);
    }
  }

  lemma {:induction false} BackoffAlways(cfg: Config, answers: seq<Answer>)
    requires Legal(cfg, answers)
    ensures BackoffInv(cfg, Run(cfg, answers))
    decreases |answers|
  {
    if answers != [] {
      BackoffAlways(cfg, answers[..|answers| - 1]);
      BackoffStep(cfg, Run(cfg, answers[..|answers| - 1]), answers[|answers| - 1]);
    }
  }

  /**
   The backoff sleeps before attempt n add up to at most 1.5 times the base delay of n less the
   configured backoff b, and without a breaker-open row among them to at least that difference.
   */
  lemma BackoffTotal(cfg: Config, answers: seq<Answer>)
    requires Legal(cfg, answers)
    ensures var d, b := Run(cfg, answers), cfg.route.backoffMs as real;
            var total := BaseDelay(cfg.route, d.attempt) - b;
            && d.attempt <= |d.rows|
            && BackoffSleeps(d.delays) <= (if b < 0.0 then 0.0 else 1.5 * total)
            && (OpenRows(d.rows[..d.attempt]) == 0 ==> total <= BackoffSleeps(d.delays))
  {
    var d := Run(cfg, answers);
    BackoffAlways(cfg, answers);
    SleepAccount(cfg, answers);
    BackoffDoubles(cfg.route, d.attempt);
    SumSign(cfg.route, d.attempt, d.attempt);
  }

  /** The delays that can follow attempt 0 are those from the configured backoff b to 1.5 b, if there is a retry. */
  lemma FirstDelay(cfg: Config, ms: real)
    requires cfg.route.backoffMs >= 0
    ensures (exists answers :: Legal(cfg, answers) && [Delay(0, ms)] <= Run(cfg, answers).delays)
            <==> var b := cfg.route.backoffMs as real; cfg.route.maxRetries >= 2 && b <= ms <= 1.5 * b
  {
    BackoffDoubles(cfg.route, 0);
    forall answers | Legal(cfg, answers) && [Delay(0, ms)] <= Run(cfg, answers).delays
      ensures var b := cfg.route.backoffMs as real; cfg.route.maxRetries >= 2 && b <= ms <= 1.5 * b
    {
      DelaysAlways(cfg, answers);
      AuditAlways(cfg, answers);
      assert Run(cfg, answers).delays[0] == Delay(0, ms);
    }
    var b := cfg.route.backoffMs as real;
    if cfg.route.maxRetries >= 2 && b <= ms <= 1.5 * b {
      var answers := FirstRetry(cfg, ms - b);
    }
  }

  lemma FirstRequest(cfg: Config) returns (answers: seq<Answer>)
    ensures Legal(cfg, answers) && Run(cfg, answers) == START.(phase := AtSend)
  {
    answers := Record(cfg, [], Breaker(false));
    if cfg.route.rpm.Some? {
      answers := Record(cfg, answers, RouteLimit(true));
    }
    answers := Record(cfg, answers, DestLimit(true));
  }

  /** The first request fails, and the delivery sleeps before the next one. */
  lemma FirstRetry(cfg: Config, jitter: real) returns (answers: seq<Answer>)
    requires cfg.route.maxRetries >= 2 && Drawn(BaseDelay(cfg.route, 0), jitter)
    ensures Legal(cfg, answers) && Run(cfg, answers).delays == [Delay(0, BaseDelay(cfg.route, 0) + jitter)]
  {
    answers := FirstRequest(cfg);
    answers := Record(cfg, answers, Http(Answered(503)));
    answers := Record(cfg, answers, Report(jitter, NoProducer));
  }

  lemma {:induction false} CooldownsGrow(cfg: Config, rows: seq<Row>, n: nat)
    requires n <= |rows|
    ensures CooldownSleeps(cfg, rows[..n]) <= CooldownSleeps(cfg, rows)
    decreases |rows|
  {
    if n < |rows| {
      CooldownsGrow(cfg, rows[..|rows| - 1], n);
      assert rows[..|rows| - 1][..n] == rows[..n];
    } else {
      assert rows[..n] == rows;
    }
  }

  /** The cooldown sleeps are one cooldown, in milliseconds, for every breaker-open row. */
  lemma {:induction false} CooldownsAreRows(cfg: Config, rows: seq<Row>)
    ensures CooldownSleeps(cfg, rows) == OpenRows(rows) as real * (1000.0 * Max(cfg.cooldownS, 0) as real)
  {
    if rows != [] {
      CooldownsAreRows(cfg, rows[..|rows| - 1]);
      OneTimeMore(OpenRows(rows[..|rows| - 1]), 1000.0 * Max(cfg.cooldownS, 0) as real);
    }
  }

  lemma OneTimeMore(k: nat, c: real)
    ensures (k + 1) as real * c == k as real * c + c
  {
  }

  lemma BackoffWithin(cfg: Config, d: Progress)
    requires BackoffInv(cfg, d) && d.attempt < Attempts(cfg)
    ensures BackoffSleeps(d.delays)
            <= Sleep(1.5 * (BaseDelay(cfg.route, Attempts(cfg) - 1) - cfg.route.backoffMs as real))
  {
    BackoffDoubles(cfg.route, Attempts(cfg) - 1);
    SumSign(cfg.route, d.attempt, Attempts(cfg) - 1);
    SumSign(cfg.route, d.attempt, d.attempt);
  }

  /**
   The same in closed form: with N = max(1, max_retries), at most 1.5 times the base delay of the
   last attempt less b, one cooldown per breaker-open row, and five seconds per attempt.
   */
  lemma TimeInClosedForm(cfg: Config, answers: seq<Answer>)
    requires Legal(cfg, answers)
    ensures var d, n := Run(cfg, answers), Attempts(cfg);
            d.slept <= Sleep(1.5 * (BaseDelay(cfg.route, n - 1) - cfg.route.backoffMs as real))
                       + CooldownSleeps(cfg, d.rows) + 5000.0 * n as real
  {
    var d := Run(cfg, answers);
    AuditAlways(cfg, answers);
    TimeAlways(cfg, answers);
    SleepAccount(cfg, answers);
    BackoffAlways(cfg, answers);
    BackoffWithin(cfg, d);
    CooldownsGrow(cfg, d.rows, d.attempt);
    assert d.calls - 1 - d.attempt <= 5 * Attempts(cfg);
  }

  // ---------------------------------------------------------------- the engine itself

  lemma Extend(cfg: Config, answers: seq<Answer>, a: Answer)
    requires Legal(cfg, answers) && Fits(cfg, Run(cfg, answers), a)
    ensures Legal(cfg, answers + [a]) && Run(cfg, answers + [a]) == Next(cfg, Run(cfg, answers), a)
  {
    assert (answers + [a])[..|answers|] == answers;
  }

  /** One more answer, as a run of which only the outcome matters. */
  lemma Record(cfg: Config, answers: seq<Answer>, a: Answer) returns (more: seq<Answer>)
    requires Legal(cfg, answers) && Fits(cfg, Run(cfg, answers), a)
    ensures Legal(cfg, more) && Run(cfg, more) == Next(cfg, Run(cfg, answers), a)
  {
    Extend(cfg, answers, a);
    more := answers + [a];
  }

  /** A transport error or 5xx with an attempt left. */
  predicate Retries(cfg: Config, attempt: nat, o: Outcome) {
    IsServerFailure(o) && attempt + 1 < cfg.route.maxRetries
  }

  /** What the report of outcome `o` does to a delivery. */
  lemma ExtendReport(cfg: Config, answers: seq<Answer>, o: Outcome, jitter: real, letter: Letter)
    requires Legal(cfg, answers)
    requires var d := Run(cfg, answers);
             d.phase.AtReport? && d.rows != [] && d.rows[|d.rows| - 1].outcome == o
               && Drawn(BaseDelay(cfg.route, d.attempt), jitter)
    ensures Legal(cfg, answers + [Report(jitter, letter)])
    ensures var d, e := Run(cfg, answers), Run(cfg, answers + [Report(jitter, letter)]);
            && e.rows == d.rows
            && (if Retries(cfg, d.attempt, o) then
                  && e.phase.AtBreaker? && e.attempt == d.attempt + 1 && e.waits == 0 && e.letter == d.letter
                  && e.slept == d.slept + Sleep(BaseDelay(cfg.route, d.attempt) + jitter)
                else
                  && e.phase.Done? && e.slept == d.slept
                  && e.letter == if IsServerFailure(o) then Some(letter) else d.letter)
  {
    Extend(cfg, answers, Report(jitter, letter));
  }

  /** A dead letter is left by the report of the last failure, and only there. */
  lemma ReportLeavesLetter(cfg: Config, answers: seq<Answer>, o: Outcome, jitter: real, letter: Letter)
    requires Legal(cfg, answers)
    requires var d := Run(cfg, answers);
             d.phase.AtReport? && d.rows != [] && d.rows[|d.rows| - 1].outcome == o
               && Drawn(BaseDelay(cfg.route, d.attempt), jitter)
    ensures Legal(cfg, answers + [Report(jitter, letter)])
    ensures var d := Run(cfg, answers);
            && DeadLetters(d) == 0
            && DeadLetters(Run(cfg, answers + [Report(jitter, letter)]))
               == if IsServerFailure(o) && !Retries(cfg, d.attempt, o) && Left(letter) then 1 else 0
  {
    AuditAlways(cfg, answers);
    ExtendReport(cfg, answers, o, jitter, letter);
  }

  /** One delivery of one event along one route, sharing its breaker and limiter with others. */
  class DeliveryWorker {
    const cfg: Config
    const breaker: CB.CircuitBreaker
    const limiter: RL.SlidingWindowRateLimiter
    /** DeliveryAttempt rows committed by this delivery. */
    var rows: seq<Row>
    /** Dead letters this delivery left in the topic. */
    var deadLetters: nat
    /** Milliseconds of sleep asked for. */
    var slept: real
    var now: Instant
    /** The answers received so far. */
    ghost var trail: seq<Answer>

    ghost predicate Valid()
      reads this, breaker, limiter
    {
      && breaker.Valid() && limiter.Valid() && Legal(cfg, trail)
      && rows == Run(cfg, trail).rows
      && slept == Run(cfg, trail).slept
      && deadLetters == DeadLetters(Run(cfg, trail))
    }

    ghost predicate Entering(attempt: nat, waits: nat)
      reads this
    {
      Legal(cfg, trail) &&
      var d := Run(cfg, trail);
      d.phase.AtBreaker? && d.attempt == attempt && d.waits == waits
    }

    constructor (cfg: Config, breaker: CB.CircuitBreaker, limiter: RL.SlidingWindowRateLimiter, now: Instant)
      requires breaker.Valid() && limiter.Valid()
      ensures Valid() && Entering(0, 0) && this.cfg == cfg && this.breaker == breaker && this.limiter == limiter
    {
      this.cfg, this.breaker, this.limiter, this.now := cfg, breaker, limiter, now;
      rows, deadLetters, slept, trail := [], 0, 0.0, [];
    }

    /** Other deliveries use the breaker and the limiter while this one is suspended. */
    method Elsewhere()
      requires Valid()
      modifies this`now, breaker, limiter
      ensures Valid() && now >= old(now)
    {
    }

    /** The HTTP request: some status, or some transport error. */
    method Request() returns (o: Outcome)
      ensures o.Answered? || o.Failed?
    {
      var status: nat := *;
      var message: string := *;
      if * {
        o := Answered(status);
      } else {
        o := Failed(message);
      }
    }

    /** The limiter has recorded one call on `key`, under `limit` and at `now`, and `allowed` is its answer. */
    ghost predicate LimiterSaid(before: map<string, seq<RL.Attempt>>, key: string, limit: Option<int>, allowed: bool)
      reads this`now, limiter
    {
      var a := RL.Attempt(now, now, if limit.Some? then limit.value else limiter.maxRpm);
      && limiter.history == before[key := RL.Calls(before, key) + [a]]
      && allowed == RL.Admits(RL.StateAfter(RL.Calls(before, key)), a)
    }

    method AskLimiter(key: string, limit: Option<int>) returns (allowed: bool)
      requires limiter.Valid()
      modifies limiter
      ensures limiter.Valid() && LimiterSaid(old(limiter.history), key, limit, allowed)
    {
      allowed := limiter.AllowRequest(key, limit, now, now);
    }

    /** The route's own limit: a denial ends the delivery with a row. */
    method PassRouteLimit(attempt: nat) returns (passed: bool)
      requires Valid() && Run(cfg, trail).phase.AtRouteLimit? && Run(cfg, trail).attempt == attempt
      modifies this`rows, this`trail, limiter
      ensures Valid() && LimiterSaid(old(limiter.history), "route:" + cfg.route.id, cfg.route.rpm, passed)
      ensures rows == if passed then old(rows) else old(rows) + [Row(attempt, RouteLimited)]
      ensures Run(cfg, trail).attempt == attempt && Run(cfg, trail).waits == old(Run(cfg, trail).waits)
      ensures Run(cfg, trail).phase == if passed then AtDestLimit else Done
    {
      passed := AskLimiter("route:" + cfg.route.id, cfg.route.rpm);
      trail := Record(cfg, trail, RouteLimit(passed));
      if !passed {
        rows := rows + [Row(attempt, RouteLimited)];
      }
    }

    /** The destination's limit: a denial means one more wait, or after five of them a row. */
    method PassDestLimit(attempt: nat, waits: nat) returns (passed: bool)
      requires Valid() && Run(cfg, trail).phase.AtDestLimit? && Run(cfg, trail).attempt == attempt
               && Run(cfg, trail).waits == waits
      modifies this`rows, this`slept, this`trail, limiter
      ensures Valid() && LimiterSaid(old(limiter.history), "dest:" + cfg.route.url, None, passed)
      ensures rows == if passed || waits < MAX_RATE_LIMIT_WAITS then old(rows)
                      else old(rows) + [Row(attempt, Abandoned)]
      ensures if passed then Run(cfg, trail).phase.AtSend? && Run(cfg, trail).attempt == attempt
              else if waits < MAX_RATE_LIMIT_WAITS then Entering(attempt, waits + 1)
              else Run(cfg, trail).phase.Done?
    {
      passed := AskLimiter("dest:" + cfg.route.url, None);
      trail := Record(cfg, trail, DestLimit(passed));
      if !passed {
        if waits >= MAX_RATE_LIMIT_WAITS {
          rows := rows + [Row(attempt, Abandoned)];
        } else {
          slept := slept + Sleep(1000.0);
        }
      }
    }

    /** 2xx clears the breaker; everything else, 3xx and 4xx included, counts as a failure. */
    method ReportToBreaker(o: Outcome)
      requires breaker.Valid()
      modifies breaker
      ensures breaker.Valid()
      ensures breaker.history == old(breaker.history)
              + [if o.Answered? && 200 <= o.status < 300 then CB.Success(now) else CB.Failure(now)]
    {
      if IsSuccess(o) {
        breaker.RecordSuccess(now);
      } else {
        breaker.RecordFailure(now);
      }
    }

    /** Sleep before a retry, or try the dead-letter topic. */
    method RetryOrGiveUp(attempt: nat, o: Outcome) returns (retry: bool)
      requires Valid() && Run(cfg, trail).phase.AtReport? && Run(cfg, trail).attempt == attempt
      requires rows != [] && rows[|rows| - 1].outcome == o
      modifies this`slept, this`deadLetters, this`trail
      ensures Valid()
      ensures retry <==> (o.Failed? || (o.Answered? && o.status >= 500)) && attempt + 1 < cfg.route.maxRetries
      ensures if retry then Entering(attempt + 1, 0) else Run(cfg, trail).phase.Done?
    {
      var jitter := Jitter(BaseDelay(cfg.route, attempt));
      var letter: Letter := *;
      ExtendReport(cfg, trail, o, jitter, letter);
      ReportLeavesLetter(cfg, trail, o, jitter, letter);
      trail := trail + [Report(jitter, letter)];
      if IsSuccess(o) || IsClientError(o) {
        return false;
      }
      if IsServerFailure(o) {
        if attempt + 1 < cfg.route.maxRetries {
          slept := slept + Sleep(BaseDelay(cfg.route, attempt) + jitter);
          return true;
        }
        if Left(letter) {
          deadLetters := deadLetters + 1;
        }
      }
      return false;
    }

    /** The outcome goes to the breaker first. */
    method ReportOutcome(attempt: nat, o: Outcome) returns (retry: bool)
      requires Valid() && Run(cfg, trail).phase.AtReport? && Run(cfg, trail).attempt == attempt
      requires rows != [] && rows[|rows| - 1].outcome == o
      modifies this`slept, this`deadLetters, this`trail, breaker
      ensures Valid()
      ensures breaker.history == old(breaker.history)
              + [if o.Answered? && 200 <= o.status < 300 then CB.Success(now) else CB.Failure(now)]
      ensures retry <==> (o.Failed? || (o.Answered? && o.status >= 500)) && attempt + 1 < cfg.route.maxRetries
      ensures if retry then Entering(attempt + 1, 0) else Run(cfg, trail).phase.Done?
    {
      ReportToBreaker(o);
      retry := RetryOrGiveUp(attempt, o);
    }

    method Jitter(base: real) returns (jitter: real)
      ensures Drawn(base, jitter)
    {
      jitter := *;
      if !Drawn(base, jitter) {
        jitter := 0.0;
      }
    }

    /** The breaker: an open one costs this attempt its row and a sleep of one cooldown. */
    method PassBreaker(attempt: nat, waits: nat) returns (passed: bool)
      requires Valid() && Entering(attempt, waits)
      modifies this`rows, this`slept, this`trail, breaker
      ensures Valid() && breaker.history == old(breaker.history) + [CB.Query(now)]
      ensures passed <==> !CB.Denies(breaker.cfg, old(breaker.history), now)
      ensures rows == if passed then old(rows) else old(rows) + [Row(attempt, BreakerOpen)]
      ensures if passed then
                && Run(cfg, trail).phase == (if cfg.route.rpm.Some? then AtRouteLimit else AtDestLimit)
                && Run(cfg, trail).attempt == attempt && Run(cfg, trail).waits == waits
              else if attempt + 1 < cfg.route.maxRetries then Entering(attempt + 1, 0)
              else Run(cfg, trail).phase.Done?
    {
      var open := breaker.IsOpen(now);
      passed := !open;
      trail := Record(cfg, trail, Breaker(open));
      if open {
        rows := rows + [Row(attempt, BreakerOpen)];
        if attempt + 1 < cfg.route.maxRetries {
          slept := slept + Sleep(1000.0 * cfg.cooldownS as real);
        }
      }
    }

    /** The request itself, and its row. */
    method Send(attempt: nat) returns (o: Outcome)
      requires Valid() && Run(cfg, trail).phase.AtSend? && Run(cfg, trail).attempt == attempt
      modifies this`rows, this`trail
      ensures Valid() && rows == old(rows) + [Row(attempt, o)]
      ensures Run(cfg, trail).phase.AtReport? && Run(cfg, trail).attempt == attempt
    {
      o := Request();
      trail := Record(cfg, trail, Http(o));
      rows := rows + [Row(attempt, o)];
    }

    /** Both limits, the route's if it has one; a delivery that does not pass waits or is over. */
    method PassLimits(attempt: nat, waits: nat) returns (passed: bool, again: bool)
      requires Valid() && Run(cfg, trail).attempt == attempt && Run(cfg, trail).waits == waits
      requires Run(cfg, trail).phase == if cfg.route.rpm.Some? then AtRouteLimit else AtDestLimit
      modifies this, breaker, limiter
      ensures Valid() && old(rows) <= rows
      ensures if passed then Run(cfg, trail).phase.AtSend? && Run(cfg, trail).attempt == attempt
              else if again then waits < MAX_RATE_LIMIT_WAITS && Entering(attempt, waits + 1)
              else Run(cfg, trail).phase.Done?
    {
      again := false;
      Elsewhere();
      if cfg.route.rpm.Some? {
        passed := PassRouteLimit(attempt);
        if !passed {
          return;
        }
        Elsewhere();
      }
      passed := PassDestLimit(attempt, waits);
      again := !passed && waits < MAX_RATE_LIMIT_WAITS;
    }

    /** The request, its row, and the report to the breaker. */
    method Perform(attempt: nat) returns (retry: bool)
      requires Valid() && Run(cfg, trail).phase.AtSend? && Run(cfg, trail).attempt == attempt
      modifies this, breaker, limiter
      ensures Valid() && |rows| == |old(rows)| + 1 && rows == old(rows) + [Row(attempt, rows[|rows| - 1].outcome)]
      ensures var o := rows[|rows| - 1].outcome;
              retry <==> (o.Failed? || (o.Answered? && o.status >= 500)) && attempt + 1 < cfg.route.maxRetries
      ensures if retry then Entering(attempt + 1, 0) else Run(cfg, trail).phase.Done?
    {
      var o := Send(attempt);
      Elsewhere();
      retry := ReportOutcome(attempt, o);
    }

    /** Runs the delivery to its end: whatever the surroundings answer, its rows are a legal run's. */
    method DeliverWithRetry(attempt: nat, waits: nat)
      requires Valid() && Entering(attempt, waits)
      modifies this, breaker, limiter
      ensures Valid() && old(rows) <= rows
      ensures Run(cfg, trail).phase.Done?
      decreases Attempts(cfg) - attempt, MAX_RATE_LIMIT_WAITS - waits
    {
      WithinBounds(cfg, trail);
      Elsewhere();
      var passed := PassBreaker(attempt, waits);
      if !passed {
        if attempt + 1 < cfg.route.maxRetries {
          DeliverWithRetry(attempt + 1, 0);
        }
        return;
      }
      var again;
      passed, again := PassLimits(attempt, waits);
      if !passed {
        if again {
          DeliverWithRetry(attempt, waits + 1);
        }
        return;
      }
      var retry := Perform(attempt);
      if retry {
        DeliverWithRetry(attempt + 1, 0);
      }
    }
  }
}
