/**
 Many deliveries at once: each one is the machine of the delivery engine, its answers come from
 breakers and limiters that all of them share, and their steps interleave in any order.
 */
module Fleet {
  import opened Common
  import CB = CircuitBreaker
  import RL = RateLimiter
  import D = Delivery

  /**
   The breaker's settings, the default limit of a destination, and by how much the clock of a
   limiter's caller may lag behind the server's.
   */
  datatype Settings = Settings(threshold: int, cooldownS: int, rpm: int, skew: nat)

  function BreakerOf(cfg: Settings): CB.Config { CB.Config(cfg.threshold, cfg.cooldownS * SECOND) }

  /** A delivery, and the limiter admission it holds while its request is still to be sent. */
  datatype Job = Job(cfg: D.Config, answers: seq<D.Answer>, ticket: Option<nat>)

  /** An HTTP request, and the admission on its destination's key that its delivery held. */
  datatype Request = Request(url: string, ticket: Option<nat>)

  /** `calls` holds the limiter calls made so far on each key. */
  datatype State = State(
    now: Instant, breakers: map<string, CB.Keys>, calls: map<string, seq<RL.Attempt>>,
    jobs: map<nat, Job>, requests: seq<Request>)

  const IDLE := State(0, map[], map[], map[], [])

  /** Act lets one job take its next step; its other fields are used where the step needs them. */
  datatype Step =
    | Tick(later: Instant)
    | Spawn(id: nat, route: D.Route)
    | Act(id: nat, outcome: D.Outcome, jitter: real, letter: D.Letter, lag: nat)

  function Calls(s: State, key: string): seq<RL.Attempt> { RL.Calls(s.calls, key) }

  function KeysOf(s: State, url: string): CB.Keys {
    if url in s.breakers then s.breakers[url] else CB.FRESH
  }

  function DestKey(url: string): string { "dest:" + url }

  function RouteKey(id: string): string { "route:" + id }

  function At(j: Job): D.Progress
    requires D.Legal(j.cfg, j.answers)
  {
    D.Run(j.cfg, j.answers)
  }

  predicate Enabled(s: State, step: Step) {
    match step
    case Tick(later) => s.now <= later
    case Spawn(id, _) => id !in s.jobs
    case Act(id, outcome, jitter, _, _) =>
      && id in s.jobs && D.Legal(s.jobs[id].cfg, s.jobs[id].answers)
      && var d := At(s.jobs[id]);
      && !d.phase.Done?
      && (d.phase.AtSend? ==> outcome.Answered? || outcome.Failed?)
      && (d.phase.AtReport? ==> d.rows != [] && D.Drawn(D.BaseDelay(s.jobs[id].cfg.route, d.attempt), jitter))
  }

  function Min(a: nat, b: nat): nat { if a < b then a else b }

  /** A limiter call now, by a caller whose clock lags by `lag`, but by no more than it may. */
  function Asked(cfg: Settings, s: State, limit: int, lag: nat): RL.Attempt {
    RL.Attempt(s.now - Min(lag, Min(cfg.skew, s.now)), s.now, limit)
  }

  function Grants(cfg: Settings, s: State, key: string, limit: int, lag: nat): bool {
    RL.Admits(RL.StateAfter(Calls(s, key)), Asked(cfg, s, limit, lag))
  }

  function RouteLimitOf(cfg: Settings, route: D.Route): int {
    if route.rpm.Some? then route.rpm.value else cfg.rpm
  }

  /** The answer a job gets, given what it asks in its present phase. */
  function AnswerTo(cfg: Settings, s: State, step: Step): D.Answer
    requires step.Act? && Enabled(s, step)
  {
    var j := s.jobs[step.id];
    var route := j.cfg.route;
    match At(j).phase
    case AtBreaker => D.Breaker(CB.Answer(BreakerOf(cfg), KeysOf(s, route.url), s.now).1)
    case AtRouteLimit => D.RouteLimit(Grants(cfg, s, RouteKey(route.id), RouteLimitOf(cfg, route), step.lag))
    case AtDestLimit => D.DestLimit(Grants(cfg, s, DestKey(route.url), cfg.rpm, step.lag))
    case AtSend => D.Http(step.outcome)
    case AtReport => D.Report(step.jitter, step.letter)
  }

  function WithJob(s: State, id: nat, j: Job): State { s.(jobs := s.jobs[id := j]) }

  function Answered(j: Job, a: D.Answer, ticket: Option<nat>): Job {
    Job(j.cfg, j.answers + [a], ticket)
  }

  function WithCall(cfg: Settings, s: State, key: string, limit: int, lag: nat): State {
    s.(calls := s.calls[key := Calls(s, key) + [Asked(cfg, s, limit, lag)]])
  }

  function Acted(cfg: Settings, s: State, step: Step): State
    requires step.Act? && Enabled(s, step)
  {
    var j := s.jobs[step.id];
    var route := j.cfg.route;
    var a := AnswerTo(cfg, s, step);
    match At(j).phase
    case AtBreaker =>
      WithJob(s, step.id, Answered(j, a, None))
        .(breakers := s.breakers[route.url := CB.Answer(BreakerOf(cfg), KeysOf(s, route.url), s.now).0])
    case AtRouteLimit =>
      WithJob(WithCall(cfg, s, RouteKey(route.id), RouteLimitOf(cfg, route), step.lag), step.id, Answered(j, a, None))
    case AtDestLimit =>
      var key := DestKey(route.url);
      WithJob(WithCall(cfg, s, key, cfg.rpm, step.lag), step.id,
        Answered(j, a, if a.allowed then Some(|Calls(s, key)|) else None))
    case AtSend =>
      WithJob(s, step.id, Answered(j, a, None))
        .(requests := s.requests + [Request(route.url, j.ticket)])
    case AtReport =>
      var d := At(j);
      var k := KeysOf(s, route.url);
      WithJob(s, step.id, Answered(j, a, None))
        .(breakers := s.breakers[route.url :=
            if D.IsSuccess(d.rows[|d.rows| - 1].outcome) then CB.FRESH else CB.Fail(BreakerOf(cfg), k, s.now)])
  }

  function Apply(cfg: Settings, s: State, step: Step): State
    requires Enabled(s, step)
  {
    match step
    case Tick(later) => s.(now := later)
    case Spawn(id, route) => WithJob(s, id, Job(D.Config(route, cfg.cooldownS), [], None))
    case Act(_, _, _, _, _) => Acted(cfg, s, step)
  }

  predicate Possible(cfg: Settings, s: State, steps: seq<Step>)
    decreases |steps|
  {
    steps == [] || (Enabled(s, steps[0]) && Possible(cfg, Apply(cfg, s, steps[0]), steps[1..]))
  }

  function After(cfg: Settings, s: State, steps: seq<Step>): State
    requires Possible(cfg, s, steps)
    decreases |steps|
  {
    if steps == [] then s else After(cfg, Apply(cfg, s, steps[0]), steps[1..])
  }

  // ---------------------------------------------------------------- the invariant

  /** Admission `t` on a destination's key was granted. */
  predicate Granted(h: seq<RL.Attempt>, t: nat) {
    t < |h| && RL.Allowed(h, t)
  }

  ghost predicate HistoryOk(cfg: Settings, s: State, h: seq<RL.Attempt>) {
    && RL.Skewed(h, cfg.skew)
    && forall i :: 0 <= i < |h| ==> h[i].server <= s.now
  }

  ghost predicate JobOk(s: State, j: Job) {
    && D.Legal(j.cfg, j.answers)
    && (At(j).phase.AtSend? <==> j.ticket.Some?)
    && (j.ticket.Some? ==> Granted(Calls(s, DestKey(j.cfg.route.url)), j.ticket.value))
  }

  /** A request still to be sent holds an admission nobody else holds or has used. */
  ghost predicate TicketFree(s: State, id: nat)
    requires id in s.jobs && s.jobs[id].ticket.Some?
  {
    var j := s.jobs[id];
    && Request(j.cfg.route.url, j.ticket) !in s.requests
    && forall o :: o in s.jobs && o != id && s.jobs[o].cfg.route.url == j.cfg.route.url ==> s.jobs[o].ticket != j.ticket
  }

  /** The destination limiter always runs with the configured limit. */
  ghost predicate LimitOk(cfg: Settings, h: seq<RL.Attempt>) {
    forall i :: 0 <= i < |h| ==> h[i].limit == cfg.rpm
  }

  ghost predicate HistoriesOk(cfg: Settings, s: State) {
    && (forall key :: key in s.calls ==> HistoryOk(cfg, s, s.calls[key]))
    && (forall url :: LimitOk(cfg, Calls(s, DestKey(url))))
  }

  ghost predicate RequestOk(s: State, r: Request) {
    r.ticket.Some? && Granted(Calls(s, DestKey(r.url)), r.ticket.value)
  }

  ghost predicate Inv(cfg: Settings, s: State) {
    && HistoriesOk(cfg, s)
    && (forall id :: id in s.jobs ==> JobOk(s, s.jobs[id]))
    && (forall id :: id in s.jobs && s.jobs[id].ticket.Some? ==> TicketFree(s, id))
    && (forall k :: 0 <= k < |s.requests| ==> RequestOk(s, s.requests[k]))
    && (forall j, k :: 0 <= j < k < |s.requests| ==> s.requests[j] != s.requests[k])
  }

  lemma GrantedStays(h: seq<RL.Attempt>, a: RL.Attempt, t: nat)
    requires Granted(h, t)
    ensures Granted(h + [a], t)
  {
    assert (h + [a])[..t] == h[..t];
  }

  lemma KeysDiffer(id: string, url: string, other: string)
    ensures RouteKey(id) != DestKey(url)
    ensures DestKey(url) == DestKey(other) ==> url == other
  {
    assert RouteKey(id)[0] == 'r' && DestKey(url)[0] == 'd';
    assert DestKey(url)[5..] == url && DestKey(other)[5..] == other;
  }

  lemma HistoryGrows(cfg: Settings, s: State, h: seq<RL.Attempt>, limit: int, lag: nat)
    requires HistoryOk(cfg, s, h)
    ensures HistoryOk(cfg, s, h + [Asked(cfg, s, limit, lag)])
  {
  }

  /** One more limiter call leaves histories sound and takes no admission back. */
  lemma CallKeeps(cfg: Settings, s: State, key: string, limit: int, lag: nat)
    requires HistoriesOk(cfg, s)
    requires forall url :: key == DestKey(url) ==> limit == cfg.rpm
    ensures HistoriesOk(cfg, WithCall(cfg, s, key, limit, lag))
    ensures forall url, t :: Granted(Calls(s, DestKey(url)), t) ==>
            Granted(Calls(WithCall(cfg, s, key, limit, lag), DestKey(url)), t)
  {
    var s' := WithCall(cfg, s, key, limit, lag);
    HistoryGrows(cfg, s, Calls(s, key), limit, lag);
    forall k | k in s'.calls
      ensures HistoryOk(cfg, s', s'.calls[k])
    {
      if k != key { assert HistoryOk(cfg, s, s.calls[k]); }
    }
    forall url
      ensures LimitOk(cfg, Calls(s', DestKey(url)))
    {
      assert LimitOk(cfg, Calls(s, DestKey(url)));
      assert key != DestKey(url) ==> Calls(s', DestKey(url)) == Calls(s, DestKey(url));
      assert key == DestKey(url) ==> Calls(s', DestKey(url)) == Calls(s, DestKey(url)) + [Asked(cfg, s, cfg.rpm, lag)];
    }
    forall url, t | Granted(Calls(s, DestKey(url)), t)
      ensures Granted(Calls(s', DestKey(url)), t)
    {
      if key == DestKey(url) {
        GrantedStays(Calls(s, key), Asked(cfg, s, limit, lag), t);
      }
    }
  }

  ghost predicate GrantsKept(s: State, s': State) {
    forall url, t :: Granted(Calls(s, DestKey(url)), t) ==> Granted(Calls(s', DestKey(url)), t)
  }

  /** The limiter state after one job's step, and the job's own new state. */
  lemma ActHistories(cfg: Settings, s: State, step: Step)
    requires Inv(cfg, s) && step.Act? && Enabled(s, step)
    ensures HistoriesOk(cfg, Acted(cfg, s, step)) && GrantsKept(s, Acted(cfg, s, step))
  {
    var j := s.jobs[step.id];
    var route := j.cfg.route;
    match At(j).phase {
      case AtRouteLimit =>
        forall url ensures RouteKey(route.id) != DestKey(url) { KeysDiffer(route.id, url, url); }
        CallKeeps(cfg, s, RouteKey(route.id), RouteLimitOf(cfg, route), step.lag);
      case AtDestLimit =>
        CallKeeps(cfg, s, DestKey(route.url), cfg.rpm, step.lag);
      case _ =>
    }
    var s' := Acted(cfg, s, step);
    assert At(j).phase.AtBreaker? || At(j).phase.AtSend? || At(j).phase.AtReport? ==> s'.calls == s.calls;
  }

  lemma ActJob(cfg: Settings, s: State, step: Step)
    requires Inv(cfg, s) && step.Act? && Enabled(s, step)
    ensures var j, j' := s.jobs[step.id], Acted(cfg, s, step).jobs[step.id];
            && j'.cfg == j.cfg && JobOk(Acted(cfg, s, step), j')
            && (j'.ticket.Some? ==> j'.ticket == Some(|Calls(s, DestKey(j.cfg.route.url))|))
  {
    var j := s.jobs[step.id];
    var route := j.cfg.route;
    var a := AnswerTo(cfg, s, step);
    assert JobOk(s, j);
    D.AuditAlways(j.cfg, j.answers);
    D.Extend(j.cfg, j.answers, a);
    if At(j).phase.AtDestLimit? && a.allowed {
      var h := Calls(s, DestKey(route.url));
      assert (h + [Asked(cfg, s, cfg.rpm, step.lag)])[..|h|] == h;
      assert Granted(h + [Asked(cfg, s, cfg.rpm, step.lag)], |h|);
    }
  }

  /** An admission just granted was not held or used before. */
  lemma NewTicketFree(cfg: Settings, s: State, url: string)
    requires Inv(cfg, s)
    ensures Request(url, Some(|Calls(s, DestKey(url))|)) !in s.requests
    ensures forall o :: o in s.jobs && s.jobs[o].cfg.route.url == url ==>
            s.jobs[o].ticket != Some(|Calls(s, DestKey(url))|)
  {
    var n := |Calls(s, DestKey(url))|;
    forall k | 0 <= k < |s.requests|
      ensures s.requests[k] != Request(url, Some(n))
    {
      assert RequestOk(s, s.requests[k]);
    }
    forall o | o in s.jobs && s.jobs[o].cfg.route.url == url
      ensures s.jobs[o].ticket != Some(n)
    {
      assert JobOk(s, s.jobs[o]);
    }
  }

  /** What one job's step does to everybody's tickets and to the requests. */
  lemma ActShape(cfg: Settings, s: State, step: Step)
    requires Inv(cfg, s) && step.Act? && Enabled(s, step)
    ensures var s', j := Acted(cfg, s, step), s.jobs[step.id];
            && s'.jobs.Keys == s.jobs.Keys
            && (forall o :: o in s.jobs && o != step.id ==> s'.jobs[o] == s.jobs[o])
            && (s'.requests == s.requests
                  || (s'.requests == s.requests + [Request(j.cfg.route.url, j.ticket)] && j.ticket.Some?))
            && (s'.jobs[step.id].ticket.Some? ==> s'.requests == s.requests)
  {
    assert JobOk(s, s.jobs[step.id]);
  }

  lemma ActTickets(cfg: Settings, s: State, step: Step, id: nat)
    requires Inv(cfg, s) && step.Act? && Enabled(s, step)
    requires id in s.jobs && Acted(cfg, s, step).jobs[id].ticket.Some?
    ensures TicketFree(Acted(cfg, s, step), id)
  {
    ActJob(cfg, s, step);
    ActShape(cfg, s, step);
    NewTicketFree(cfg, s, s.jobs[step.id].cfg.route.url);
    if id != step.id {
      assert TicketFree(s, id) && JobOk(s, s.jobs[id]);
      assert s.jobs[step.id].ticket.Some? ==> TicketFree(s, step.id);
    }
  }

  lemma ActRequests(cfg: Settings, s: State, step: Step)
    requires Inv(cfg, s) && step.Act? && Enabled(s, step)
    ensures var s' := Acted(cfg, s, step);
            && (forall k :: 0 <= k < |s'.requests| ==> RequestOk(s', s'.requests[k]))
            && (forall j, k :: 0 <= j < k < |s'.requests| ==> s'.requests[j] != s'.requests[k])
  {
    var s' := Acted(cfg, s, step);
    var job := s.jobs[step.id];
    ActHistories(cfg, s, step);
    assert JobOk(s, job);
    forall k | 0 <= k < |s'.requests|
      ensures RequestOk(s', s'.requests[k])
    {
      if k < |s.requests| { assert RequestOk(s, s.requests[k]); }
    }
    if At(job).phase.AtSend? {
      assert TicketFree(s, step.id);
    }
  }

  lemma ActKeeps(cfg: Settings, s: State, step: Step)
    requires Inv(cfg, s) && step.Act? && Enabled(s, step)
    ensures Inv(cfg, Acted(cfg, s, step))
  {
    var s' := Acted(cfg, s, step);
    ActHistories(cfg, s, step);
    ActJob(cfg, s, step);
    ActRequests(cfg, s, step);
    forall id | id in s'.jobs
      ensures JobOk(s', s'.jobs[id])
      ensures s'.jobs[id].ticket.Some? ==> TicketFree(s', id)
    {
      if id != step.id { assert JobOk(s, s.jobs[id]) && s'.jobs[id] == s.jobs[id]; }
      if s'.jobs[id].ticket.Some? { ActTickets(cfg, s, step, id); }
    }
  }

  lemma {:induction false} InvAlways(cfg: Settings, s: State, steps: seq<Step>)
    requires Inv(cfg, s) && Possible(cfg, s, steps)
    ensures Inv(cfg, After(cfg, s, steps))
    decreases |steps|
  {
    if steps != [] {
      var s' := Apply(cfg, s, steps[0]);
      match steps[0] {
        case Tick(_) => QuietKeeps(cfg, s, steps[0]);
        case Spawn(_, _) => QuietKeeps(cfg, s, steps[0]);
        case Act(_, _, _, _, _) => ActKeeps(cfg, s, steps[0]);
      }
      InvAlways(cfg, s', steps[1..]);
    }
  }

  lemma QuietKeeps(cfg: Settings, s: State, step: Step)
    requires Inv(cfg, s) && Enabled(s, step) && !step.Act?
    ensures Inv(cfg, Apply(cfg, s, step))
  {
    var s' := Apply(cfg, s, step);
    assert s'.calls == s.calls && s'.requests == s.requests;
    forall key | key in s'.calls
      ensures HistoryOk(cfg, s', s'.calls[key])
    {
      assert HistoryOk(cfg, s, s.calls[key]);
    }
    assert forall url :: Calls(s', DestKey(url)) == Calls(s, DestKey(url));
    forall id | id in s'.jobs
      ensures JobOk(s', s'.jobs[id])
      ensures s'.jobs[id].ticket.Some? ==> TicketFree(s', id)
    {
      if id in s.jobs {
        assert JobOk(s, s.jobs[id]);
        assert s.jobs[id].ticket.Some? ==> TicketFree(s, id);
      }
    }
    forall k | 0 <= k < |s'.requests|
      ensures RequestOk(s', s'.requests[k])
    {
      assert RequestOk(s, s.requests[k]);
    }
  }

  // ---------------------------------------------------------------- the global throttle

  /** Admissions used by the requests to `url` whose admission carries a timestamp in [lo, hi). */
  function UsedIn(requests: seq<Request>, url: string, h: seq<RL.Attempt>, lo: int, hi: int): seq<nat> {
    if requests == [] then []
    else
      var r := requests[|requests| - 1];
      UsedIn(requests[..|requests| - 1], url, h, lo, hi)
      + (if r.url == url && r.ticket.Some? && r.ticket.value < |h| && RL.In(h[r.ticket.value].stamp, lo, hi)
         then [r.ticket.value] else [])
  }

  ghost predicate UsedWell(u: seq<nat>, requests: seq<Request>, url: string, h: seq<RL.Attempt>, lo: int, hi: int) {
    && (forall i :: 0 <= i < |u| ==> u[i] < |h| && RL.In(h[u[i]].stamp, lo, hi) && Request(url, Some(u[i])) in requests)
    && (forall i, j :: 0 <= i < j < |u| ==> u[i] != u[j])
  }

  lemma {:induction false} UsedMembers(requests: seq<Request>, url: string, h: seq<RL.Attempt>, lo: int, hi: int)
    requires forall j, k :: 0 <= j < k < |requests| ==> requests[j] != requests[k]
    ensures UsedWell(UsedIn(requests, url, h, lo, hi), requests, url, h, lo, hi)
  {
    if requests != [] {
      var n := |requests| - 1;
      UsedMembers(requests[..n], url, h, lo, hi);
      var u := UsedIn(requests[..n], url, h, lo, hi);
      forall i | 0 <= i < |u|
        ensures Request(url, Some(u[i])) in requests && Request(url, Some(u[i])) != requests[n]
      {
        assert Request(url, Some(u[i])) in requests[..n];
      }
    }
  }

  lemma GrantedEarlier(h: seq<RL.Attempt>, k: nat)
    requires h != [] && Granted(h, k) && k < |h| - 1
    ensures Granted(h[..|h| - 1], k) && h[..|h| - 1][k] == h[k]
  {
    assert h[..|h| - 1][..k] == h[..k];
  }

  /** Distinct granted admissions of a window are no more than the window's granted calls. */
  lemma {:induction false} DistinctGrants(u: seq<nat>, h: seq<RL.Attempt>, lo: int, hi: int)
    requires forall i :: 0 <= i < |u| ==> Granted(h, u[i]) && RL.In(h[u[i]].stamp, lo, hi)
    requires forall i, j :: 0 <= i < j < |u| ==> u[i] != u[j]
    ensures |u| <= RL.AllowedIn(h, lo, hi)
    decreases |h|
  {
    if u != [] {
      var n := |h| - 1;
      assert Granted(h, u[0]);
      var v := u;
      if k :| 0 <= k < |u| && u[k] == n {
        v := u[..k] + u[k + 1..];
        assert h[..|h| - 1][..n] == h[..n];
      }
      forall i | 0 <= i < |v|
        ensures v[i] < n && Granted(h[..n], v[i]) && RL.In(h[..n][v[i]].stamp, lo, hi)
      {
        assert v[i] in u;
        GrantedEarlier(h, v[i]);
      }
      DistinctGrants(v, h[..n], lo, hi);
    }
  }

  /** The admissions used by requests to `url` are granted ones, and distinct. */
  lemma UsedGrants(cfg: Settings, s: State, url: string, lo: int, hi: int)
    requires Inv(cfg, s)
    ensures |UsedIn(s.requests, url, Calls(s, DestKey(url)), lo, hi)| <= RL.AllowedIn(Calls(s, DestKey(url)), lo, hi)
  {
    var h := Calls(s, DestKey(url));
    var u := UsedIn(s.requests, url, h, lo, hi);
    UsedMembers(s.requests, url, h, lo, hi);
    forall i | 0 <= i < |u|
      ensures Granted(h, u[i])
    {
      var k :| 0 <= k < |s.requests| && s.requests[k] == Request(url, Some(u[i]));
      assert RequestOk(s, s.requests[k]);
    }
    DistinctGrants(u, h, lo, hi);
  }

  lemma GrantsBounded(cfg: Settings, s: State, url: string, lo: int)
    requires HistoriesOk(cfg, s)
    ensures RL.AllowedIn(Calls(s, DestKey(url)), lo, lo + (RL.WINDOW - cfg.skew)) <= Max(cfg.rpm, 0)
  {
    var h := Calls(s, DestKey(url));
    assert HistoryOk(cfg, s, h) && LimitOk(cfg, h);
    RL.AllowedBound(h, cfg.skew, lo, lo + (RL.WINDOW - cfg.skew), Max(cfg.rpm, 0));
  }

  /**
   Every HTTP request uses its own granted admission on its destination's key, so in any
   interleaving of any number of deliveries the requests to one destination whose admission falls
   in a window of 60 seconds, less the clock skew, never exceed the configured limit.
   */
  lemma GlobalThrottle(cfg: Settings, steps: seq<Step>, url: string, lo: int)
    requires Possible(cfg, IDLE, steps)
    ensures var s := After(cfg, IDLE, steps);
            && (forall k :: 0 <= k < |s.requests| ==> RequestOk(s, s.requests[k]))
            && (forall j, k :: 0 <= j < k < |s.requests| ==> s.requests[j] != s.requests[k])
            && |UsedIn(s.requests, url, Calls(s, DestKey(url)), lo, lo + (60 * SECOND - cfg.skew))| <= Max(cfg.rpm, 0)
  {
    InvAlways(cfg, IDLE, steps);
    UsedGrants(cfg, After(cfg, IDLE, steps), url, lo, lo + (RL.WINDOW - cfg.skew));
    GrantsBounded(cfg, After(cfg, IDLE, steps), url, lo);
  }

  /** In any interleaving every finished delivery left the audit trail of a delivery run alone. */
  lemma FleetAudit(cfg: Settings, steps: seq<Step>, id: nat)
    requires Possible(cfg, IDLE, steps) && id in After(cfg, IDLE, steps).jobs
    ensures var j := After(cfg, IDLE, steps).jobs[id];
            && D.Legal(j.cfg, j.answers) && D.AuditInv(j.cfg, At(j)) && D.TimeInv(j.cfg, At(j))
            && |j.answers| <= 36 * D.Attempts(j.cfg) + 5
  {
    InvAlways(cfg, IDLE, steps);
    var s := After(cfg, IDLE, steps);
    assert JobOk(s, s.jobs[id]);
    D.AuditAlways(s.jobs[id].cfg, s.jobs[id].answers);
    D.TimeAlways(s.jobs[id].cfg, s.jobs[id].answers);
    D.RunsAreFinite(s.jobs[id].cfg, s.jobs[id].answers);
  }

  // ---------------------------------------------------------------- the shared breaker

  /** The breaker call on `url` that a step makes, if it makes one. */
  function CallOf(s: State, step: Step, url: string): seq<CB.Call>
    requires Enabled(s, step)
  {
    if step.Act? && s.jobs[step.id].cfg.route.url == url then
      var d := At(s.jobs[step.id]);
      if d.phase.AtBreaker? then [CB.Query(s.now)]
      else if d.phase.AtReport? then
        var o := d.rows[|d.rows| - 1].outcome;
        if o.Answered? && 200 <= o.status < 300 then [CB.Success(s.now)] else [CB.Failure(s.now)]
      else []
    else []
  }

  function CallsOn(cfg: Settings, s: State, steps: seq<Step>, url: string): seq<CB.Call>
    requires Possible(cfg, s, steps)
    decreases |steps|
  {
    if steps == [] then [] else CallOf(s, steps[0], url) + CallsOn(cfg, Apply(cfg, s, steps[0]), steps[1..], url)
  }

  lemma OneStepOnBreaker(cfg: Settings, s: State, step: Step, url: string)
    requires Enabled(s, step)
    ensures |CallOf(s, step, url)| <= 1 && s.now <= Apply(cfg, s, step).now
    ensures KeysOf(Apply(cfg, s, step), url) ==
            if CallOf(s, step, url) == [] then KeysOf(s, url)
            else CB.After(BreakerOf(cfg), KeysOf(s, url), CallOf(s, step, url)[0])
    ensures CallOf(s, step, url) != [] ==> CallOf(s, step, url)[0].at == s.now
  {
  }

  /** All deliveries together drive one destination's breaker as a single run of timed calls. */
  lemma {:induction false} BreakerFollowsCalls(cfg: Settings, s: State, steps: seq<Step>, url: string)
    requires Possible(cfg, s, steps)
    ensures KeysOf(After(cfg, s, steps), url)
            == CB.AfterAll(BreakerOf(cfg), KeysOf(s, url), CallsOn(cfg, s, steps, url))
    ensures CB.InOrder(CallsOn(cfg, s, steps, url), s.now)
    decreases |steps|
  {
    if steps != [] {
      var s' := Apply(cfg, s, steps[0]);
      OneStepOnBreaker(cfg, s, steps[0], url);
      BreakerFollowsCalls(cfg, s', steps[1..], url);
      var first, rest := CallOf(s, steps[0], url), CallsOn(cfg, s', steps[1..], url);
      Prepend(BreakerOf(cfg), KeysOf(s, url), first, rest, s.now, s'.now);
    }
  }

  /**
   Over every run from the start, a delivery that asks a breaker is let through or denied as the
   history of all calls on that destination says; and behind a denial there is an unbroken chain of
   failures that has reached the threshold, with no success recorded since.
   */
  lemma DenialsFollowCalls(cfg: Settings, steps: seq<Step>, step: Step) returns (j: nat)
    requires Possible(cfg, IDLE, steps) && step.Act? && Enabled(After(cfg, IDLE, steps), step)
    requires At(After(cfg, IDLE, steps).jobs[step.id]).phase.AtBreaker?
    ensures var s := After(cfg, IDLE, steps);
            var job := s.jobs[step.id];
            var calls := CallsOn(cfg, IDLE, steps, job.cfg.route.url);
            var open := CB.Denies(CB.Config(cfg.threshold, cfg.cooldownS * SECOND), calls, s.now);
            && Apply(cfg, s, step).jobs[step.id].answers == job.answers + [D.Breaker(open)]
            && (open ==> 0 < j <= |calls| && CB.NoSuccess(calls[j..])
                         && CB.ChainReaches(CB.FailuresSince(calls[..j]), cfg.threshold))
  {
    var s := After(cfg, IDLE, steps);
    var url := s.jobs[step.id].cfg.route.url;
    var calls := CallsOn(cfg, IDLE, steps, url);
    BreakerFollowsCalls(cfg, IDLE, steps, url);
    CB.AnswerFollowsHistory(BreakerOf(cfg), calls, s.now);
    j := 0;
    if CB.Denies(BreakerOf(cfg), calls, s.now) {
      j := CB.DenialNeedsChain(BreakerOf(cfg), calls, s.now);
    }
  }

  /** A report adds a success to its destination's calls after a 2xx, and a failure after anything else. */
  lemma ReportsFollowOutcomes(cfg: Settings, steps: seq<Step>, step: Step)
    requires Possible(cfg, IDLE, steps) && step.Act? && Enabled(After(cfg, IDLE, steps), step)
    requires At(After(cfg, IDLE, steps).jobs[step.id]).phase.AtReport?
    ensures var s := After(cfg, IDLE, steps);
            var job := s.jobs[step.id];
            var url := job.cfg.route.url;
            var calls := CallsOn(cfg, IDLE, steps, url);
            && job.answers != [] && job.answers[|job.answers| - 1].Http?
            && var o := job.answers[|job.answers| - 1].outcome;
            KeysOf(Apply(cfg, s, step), url) == CB.AfterAll(BreakerOf(cfg), CB.FRESH,
              calls + [if o.Answered? && 200 <= o.status < 300 then CB.Success(s.now) else CB.Failure(s.now)])
  {
    var s := After(cfg, IDLE, steps);
    var job := s.jobs[step.id];
    var url := job.cfg.route.url;
    D.ReportsLastAnswer(job.cfg, job.answers);
    BreakerFollowsCalls(cfg, IDLE, steps, url);
    OneStepOnBreaker(cfg, s, step, url);
    CB.AfterAllSnoc(BreakerOf(cfg), CB.FRESH, CallsOn(cfg, IDLE, steps, url), CallOf(s, step, url)[0]);
  }

  lemma Prepend(cfg: CB.Config, k: CB.Keys, first: seq<CB.Call>, rest: seq<CB.Call>, now: Instant, later: Instant)
    requires |first| <= 1 && now <= later && CB.InOrder(rest, later)
    requires first != [] ==> first[0].at == now
    ensures CB.AfterAll(cfg, k, first + rest)
            == CB.AfterAll(cfg, if first == [] then k else CB.After(cfg, k, first[0]), rest)
    ensures CB.InOrder(first + rest, now)
  {
    if first == [] {
      assert first + rest == rest;
    } else {
      assert (first + rest)[1..] == rest;
    }
  }

  /**
   Once a destination's breaker has opened, and until a success is recorded on it, the deliveries
   that any interleaving lets past it in an interval number at most one per cooldown plus two.
   */
  lemma FleetBreakerThrottle(cfg: Settings, s: State, steps: seq<Step>, url: string, lo: Instant, hi: Instant)
    requires Possible(cfg, s, steps) && cfg.cooldownS > 0 && lo <= hi
    requires CB.Opened(KeysOf(s, url), s.now) && CB.NoSuccess(CallsOn(cfg, s, steps, url))
    ensures CB.AdmittedIn(BreakerOf(cfg), KeysOf(s, url), CallsOn(cfg, s, steps, url), lo, hi)
         <= (hi - lo) / (cfg.cooldownS * SECOND) + 2
  {
    BreakerFollowsCalls(cfg, s, steps, url);
    CB.ThrottleBound(BreakerOf(cfg), KeysOf(s, url), CallsOn(cfg, s, steps, url), s.now, lo, hi);
  }
}
