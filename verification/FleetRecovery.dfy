/**
 When the deliveries of a fleet can leave a destination's breaker stuck: exactly which settings
 allow it, with real limiters and with every delivery finished, and that it is final.
 */
module FleetRecovery {
  import opened Common
  import CB = CircuitBreaker
  import RL = RateLimiter
  import D = Delivery
  import opened Fleet

  ghost predicate Finished(j: Job) { D.Legal(j.cfg, j.answers) && At(j).phase.Done? }

  ghost predicate AllDone(s: State) {
    forall id :: id in s.jobs ==> Finished(s.jobs[id])
  }

  /** A limiter turned the delivery away, at whichever of its attempts. */
  predicate Denial(a: D.Answer) { (a.RouteLimit? || a.DestLimit?) && !a.allowed }

  ghost predicate Undenied(j: Job) {
    forall i :: 0 <= i < |j.answers| ==> !Denial(j.answers[i])
  }

  ghost predicate NoDenials(s: State) {
    forall id :: id in s.jobs ==> Undenied(s.jobs[id])
  }

  /** A step of one delivery adds one answer to it and leaves the others alone. */
  lemma ActedJob(cfg: Settings, s: State, step: Step)
    requires step.Act? && Enabled(s, step)
    ensures var s', j := Acted(cfg, s, step), s.jobs[step.id];
            && s'.jobs.Keys == s.jobs.Keys && s'.now == s.now
            && (forall o :: o in s.jobs && o != step.id ==> s'.jobs[o] == s.jobs[o])
            && s'.jobs[step.id].cfg == j.cfg && s'.jobs[step.id].answers == j.answers + [AnswerTo(cfg, s, step)]
            && D.Legal(j.cfg, s'.jobs[step.id].answers)
            && At(s'.jobs[step.id]) == D.Next(j.cfg, At(j), AnswerTo(cfg, s, step))
  {
    var j := s.jobs[step.id];
    D.Extend(j.cfg, j.answers, AnswerTo(cfg, s, step));
  }

  // ---------------------------------------------------------------- stuck is final

  ghost predicate Waiting(j: Job) {
    D.Legal(j.cfg, j.answers) && (At(j).phase.Done? || At(j).phase.AtBreaker?)
  }

  /** The breaker of `url` is stuck and no delivery to it is past the breaker. */
  ghost predicate Shut(s: State, url: string) {
    && CB.Stuck(KeysOf(s, url))
    && forall id :: id in s.jobs && s.jobs[id].cfg.route.url == url ==> Waiting(s.jobs[id])
  }

  function RequestsTo(requests: seq<Request>, url: string): nat {
    if requests == [] then 0
    else RequestsTo(requests[..|requests| - 1], url) + (if requests[|requests| - 1].url == url then 1 else 0)
  }

  lemma ShutStep(cfg: Settings, s: State, step: Step, url: string)
    requires Shut(s, url) && Enabled(s, step)
    ensures Shut(Apply(cfg, s, step), url)
    ensures RequestsTo(Apply(cfg, s, step).requests, url) == RequestsTo(s.requests, url)
  {
    var s' := Apply(cfg, s, step);
    if step.Act? {
      var j := s.jobs[step.id];
      if j.cfg.route.url == url {
        assert Waiting(j);
        D.Extend(j.cfg, j.answers, AnswerTo(cfg, s, step));
        assert Waiting(s'.jobs[step.id]);
      } else if At(j).phase.AtSend? {
        assert s'.requests[..|s'.requests| - 1] == s.requests;
      }
    }
    forall id | id in s'.jobs && s'.jobs[id].cfg.route.url == url
      ensures Waiting(s'.jobs[id])
    {
      if id in s.jobs && (step.Act? ==> id != step.id) { assert Waiting(s.jobs[id]); }
    }
  }

  /**
   Once a destination's breaker is stuck and no delivery to it is past the breaker, no run of the
   fleet ever changes that or sends the destination another request.
   */
  lemma {:induction false} ShutForGood(cfg: Settings, s: State, steps: seq<Step>, url: string)
    requires Shut(s, url) && Possible(cfg, s, steps)
    ensures Shut(After(cfg, s, steps), url)
    ensures RequestsTo(After(cfg, s, steps).requests, url) == RequestsTo(s.requests, url)
    decreases |steps|
  {
    if steps != [] {
      ShutStep(cfg, s, steps[0], url);
      ShutForGood(cfg, Apply(cfg, s, steps[0]), steps[1..], url);
    }
  }

  // ---------------------------------------------------------------- when it cannot happen

  ghost predicate Unsent(j: Job) {
    D.Legal(j.cfg, j.answers) && !At(j).phase.AtSend? && !At(j).phase.AtReport?
  }

  /** Nothing was sent, so no breaker has heard of anything. */
  ghost predicate Silent(s: State) {
    && (forall id :: id in s.jobs ==> Unsent(s.jobs[id]))
    && (forall url :: KeysOf(s, url) == CB.FRESH)
  }

  lemma SilentActor(cfg: Settings, s: State, step: Step)
    requires cfg.rpm <= 0 && step.Act? && Enabled(s, step) && Unsent(s.jobs[step.id])
    ensures Unsent(Acted(cfg, s, step).jobs[step.id])
  {
    ActedJob(cfg, s, step);
  }

  lemma SilentBreaker(cfg: Settings, s: State, step: Step, url: string)
    requires Silent(s) && Enabled(s, step)
    ensures KeysOf(Apply(cfg, s, step), url) == CB.FRESH
  {
    assert KeysOf(s, url) == CB.FRESH;
    if step.Act? {
      assert Unsent(s.jobs[step.id]);
    }
  }

  lemma SilentStep(cfg: Settings, s: State, step: Step)
    requires cfg.rpm <= 0 && Silent(s) && Enabled(s, step)
    ensures Silent(Apply(cfg, s, step)) && Apply(cfg, s, step).requests == s.requests
  {
    var s' := Apply(cfg, s, step);
    forall url ensures KeysOf(s', url) == CB.FRESH {
      SilentBreaker(cfg, s, step, url);
    }
    if step.Act? {
      assert Unsent(s.jobs[step.id]);
      ActedJob(cfg, s, step);
      SilentActor(cfg, s, step);
    }
    forall id | id in s'.jobs
      ensures Unsent(s'.jobs[id])
    {
      if id in s.jobs { assert Unsent(s.jobs[id]); }
    }
  }

  lemma {:induction false} SilentAlways(cfg: Settings, s: State, steps: seq<Step>)
    requires cfg.rpm <= 0 && Silent(s) && Possible(cfg, s, steps)
    ensures Silent(After(cfg, s, steps)) && After(cfg, s, steps).requests == s.requests
    decreases |steps|
  {
    if steps != [] {
      SilentStep(cfg, s, steps[0]);
      SilentAlways(cfg, Apply(cfg, s, steps[0]), steps[1..]);
    }
  }

  ghost predicate PastBreaker(j: Job, url: string) {
    && D.Legal(j.cfg, j.answers) && j.cfg.route.url == url
    && (At(j).phase.AtRouteLimit? || At(j).phase.AtDestLimit? || At(j).phase.AtSend? || At(j).phase.AtReport?)
  }

  /** Without denials a half-open breaker has a probe that is still to report. */
  ghost predicate Probed(s: State, url: string) {
    NoDenials(s) && KeysOf(s, url).state == Some("HALF_OPEN") ==>
      exists id :: id in s.jobs && PastBreaker(s.jobs[id], url)
  }

  lemma DenialsStay(cfg: Settings, s: State, step: Step)
    requires Enabled(s, step) && NoDenials(Apply(cfg, s, step))
    ensures NoDenials(s)
    ensures step.Act? ==> !Denial(AnswerTo(cfg, s, step))
  {
    var s' := Apply(cfg, s, step);
    if step.Act? {
      ActedJob(cfg, s, step);
      var j := s'.jobs[step.id];
      assert Undenied(j) && j.answers[|j.answers| - 1] == AnswerTo(cfg, s, step);
    }
    forall id, i | id in s.jobs && 0 <= i < |s.jobs[id].answers|
      ensures !Denial(s.jobs[id].answers[i])
    {
      assert Undenied(s'.jobs[id]) && s'.jobs[id].answers[i] == s.jobs[id].answers[i];
    }
  }

  /** The job that acts stays past the breaker, or reports and takes the breaker out of HALF_OPEN. */
  lemma ProbeActs(cfg: Settings, s: State, step: Step, url: string)
    requires cfg.threshold <= 1 && step.Act? && Enabled(s, step)
    requires PastBreaker(s.jobs[step.id], url) && !Denial(AnswerTo(cfg, s, step))
    ensures KeysOf(Acted(cfg, s, step), url).state == Some("HALF_OPEN") ==>
              PastBreaker(Acted(cfg, s, step).jobs[step.id], url)
  {
    ActedJob(cfg, s, step);
  }

  lemma AskerActs(cfg: Settings, s: State, step: Step, url: string)
    requires step.Act? && Enabled(s, step) && At(s.jobs[step.id]).phase.AtBreaker?
    requires KeysOf(Acted(cfg, s, step), url).state == Some("HALF_OPEN")
    ensures KeysOf(s, url).state == Some("HALF_OPEN") || PastBreaker(Acted(cfg, s, step).jobs[step.id], url)
  {
    ActedJob(cfg, s, step);
  }

  lemma ProbedStep(cfg: Settings, s: State, step: Step, url: string)
    requires cfg.threshold <= 1 && Probed(s, url) && Enabled(s, step)
    ensures Probed(Apply(cfg, s, step), url)
  {
    var s' := Apply(cfg, s, step);
    if NoDenials(s') && KeysOf(s', url).state == Some("HALF_OPEN") {
      DenialsStay(cfg, s, step);
      if step.Act? && PastBreaker(s.jobs[step.id], url) {
        ProbeActs(cfg, s, step, url);
        assert PastBreaker(s'.jobs[step.id], url);
      } else if step.Act? && At(s.jobs[step.id]).phase.AtBreaker? && KeysOf(s, url).state != Some("HALF_OPEN") {
        AskerActs(cfg, s, step, url);
      } else {
        assert KeysOf(s, url).state == Some("HALF_OPEN");
        var id :| id in s.jobs && PastBreaker(s.jobs[id], url);
        assert s'.jobs[id] == s.jobs[id];
      }
    }
  }

  lemma {:induction false} ProbedAlways(cfg: Settings, s: State, steps: seq<Step>, url: string)
    requires cfg.threshold <= 1 && Probed(s, url) && Possible(cfg, s, steps)
    ensures Probed(After(cfg, s, steps), url)
    decreases |steps|
  {
    if steps != [] {
      ProbedStep(cfg, s, steps[0], url);
      ProbedAlways(cfg, Apply(cfg, s, steps[0]), steps[1..], url);
    }
  }

  // ---------------------------------------------------------------- building runs

  lemma {:induction false} Snoc(cfg: Settings, s: State, steps: seq<Step>, step: Step)
    requires Possible(cfg, s, steps) && Enabled(After(cfg, s, steps), step)
    ensures Possible(cfg, s, steps + [step])
    ensures After(cfg, s, steps + [step]) == Apply(cfg, After(cfg, s, steps), step)
    decreases |steps|
  {
    if steps == [] {
      assert [step][1..] == [];
    } else {
      Snoc(cfg, Apply(cfg, s, steps[0]), steps[1..], step);
      assert (steps + [step])[1..] == steps[1..] + [step];
    }
  }

  /** A state together with a run from idle that leads to it. */
  ghost predicate Reached(cfg: Settings, steps: seq<Step>, s: State) {
    Possible(cfg, IDLE, steps) && s == After(cfg, IDLE, steps)
  }

  lemma Go(cfg: Settings, steps: seq<Step>, s: State, step: Step) returns (more: seq<Step>, s': State)
    requires Reached(cfg, steps, s) && Enabled(s, step)
    ensures steps <= more && s' == Apply(cfg, s, step) && Reached(cfg, more, s')
  {
    Snoc(cfg, IDLE, steps, step);
    more, s' := steps + [step], Apply(cfg, s, step);
  }

  const BAD := D.Answered(400)
  const BAD_ROW := D.Row(0, BAD)

  /** A delivery with a single attempt, along a route without a limit of its own. */
  function Single(cfg: Settings, url: string): D.Config {
    D.Config(D.Route("r", url, None, 1, 0), cfg.cooldownS)
  }

  /** Such a delivery after these answers, its request not outstanding. */
  function JobWith(cfg: Settings, url: string, answers: seq<D.Answer>): Job {
    Job(Single(cfg, url), answers, None)
  }

  const ENTERED := [D.Breaker(false)]
  const GRANTED := ENTERED + [D.DestLimit(true)]
  const SENT := GRANTED + [D.Http(BAD)]
  const REPORTED := SENT + [D.Report(0.0, D.NoProducer)]
  const DENIED := ENTERED + [D.DestLimit(false)]
  const SHUT_OUT := DENIED + [D.Breaker(true)]
  const PROBING := DENIED + [D.Breaker(false)]
  const PROBED := PROBING + [D.DestLimit(false)]
  const LOCKED_OUT := PROBED + [D.Breaker(true)]

  lemma LifeOf(cfg: Settings, url: string)
    ensures var c := Single(cfg, url);
            && D.Legal(c, []) && D.Run(c, []) == D.START
            && D.Legal(c, ENTERED) && D.Run(c, ENTERED) == D.START.(phase := D.AtDestLimit)
  {
    D.Extend(Single(cfg, url), [], D.Breaker(false));
    assert [] + [D.Breaker(false)] == ENTERED;
  }

  /** The life of a delivery that is answered 400. */
  lemma LifeOfSent(cfg: Settings, url: string)
    ensures var c := Single(cfg, url);
            && D.Legal(c, GRANTED) && D.Run(c, GRANTED).phase.AtSend?
            && D.Legal(c, SENT) && D.Run(c, SENT).phase.AtReport? && D.Run(c, SENT).rows == [BAD_ROW]
            && D.Run(c, SENT).attempt == 0
            && D.Legal(c, REPORTED) && D.Run(c, REPORTED).phase.Done?
  {
    var c := Single(cfg, url);
    LifeOf(cfg, url);
    D.Extend(c, ENTERED, D.DestLimit(true));
    assert D.Run(c, GRANTED) == D.START.(phase := D.AtSend);
    D.Extend(c, GRANTED, D.Http(BAD));
    assert D.Run(c, SENT).rows == [BAD_ROW];
    D.Extend(c, SENT, D.Report(0.0, D.NoProducer));
  }

  /** The life of a delivery that is denied, waits, and finds the breaker open. */
  lemma LifeOfDenied(cfg: Settings, url: string)
    ensures var c := Single(cfg, url);
            && D.Legal(c, DENIED) && D.Run(c, DENIED) == D.START.(waits := 1, slept := 1000.0, calls := 2)
            && D.Legal(c, SHUT_OUT) && D.Run(c, SHUT_OUT).phase.Done?
  {
    var c := Single(cfg, url);
    LifeOf(cfg, url);
    D.Extend(c, ENTERED, D.DestLimit(false));
    D.Extend(c, DENIED, D.Breaker(true));
  }

  /** The life of a delivery that is denied, passes the breaker again, and is denied again. */
  lemma LifeOfProber(cfg: Settings, url: string)
    ensures var c := Single(cfg, url);
            && D.Legal(c, PROBING) && D.Run(c, PROBING).phase.AtDestLimit?
            && D.Legal(c, PROBED) && D.Run(c, PROBED).phase.AtBreaker?
            && D.Legal(c, LOCKED_OUT) && D.Run(c, LOCKED_OUT).phase.Done?
  {
    var c := Single(cfg, url);
    LifeOfDenied(cfg, url);
    D.Extend(c, DENIED, D.Breaker(false));
    assert D.Run(c, PROBING) == D.Run(c, DENIED).(phase := D.AtDestLimit);
    D.Extend(c, PROBING, D.DestLimit(false));
    assert D.Run(c, PROBED) == D.Run(c, DENIED).(waits := 2, slept := 2000.0, calls := 3);
    D.Extend(c, PROBED, D.Breaker(true));
  }

  /** `s'` differs from `s` in job `id` and the breaker of `url`, and perhaps in calls and requests. */
  ghost predicate OnlyJob(s: State, s': State, id: nat, url: string) {
    && s'.now == s.now && s'.jobs.Keys == s.jobs.Keys + {id}
    && (forall o :: o in s.jobs && o != id ==> s'.jobs[o] == s.jobs[o])
    && (forall u :: u != url ==> KeysOf(s', u) == KeysOf(s, u))
  }

  /** The next call on the key of `url`, by a caller whose clock is right, is granted. */
  predicate Open(cfg: Settings, s: State, url: string) { Grants(cfg, s, DestKey(url), cfg.rpm, 0) }

  ghost predicate OneCall(cfg: Settings, s: State, s': State, url: string) {
    Calls(s', DestKey(url)) == Calls(s, DestKey(url)) + [Asked(cfg, s, cfg.rpm, 0)]
  }

  lemma ActBreaker(cfg: Settings, steps: seq<Step>, s: State, id: nat, url: string, answers: seq<D.Answer>)
    returns (more: seq<Step>, s': State)
    requires Reached(cfg, steps, s) && id in s.jobs && s.jobs[id] == JobWith(cfg, url, answers)
    requires D.Legal(Single(cfg, url), answers) && D.Run(Single(cfg, url), answers).phase.AtBreaker?
    ensures steps <= more && Reached(cfg, more, s') && OnlyJob(s, s', id, url)
    ensures s'.calls == s.calls && s'.requests == s.requests
    ensures var (keys, open) := CB.Answer(BreakerOf(cfg), KeysOf(s, url), s.now);
            KeysOf(s', url) == keys && s'.jobs[id] == JobWith(cfg, url, answers + [D.Breaker(open)])
  {
    more, s' := Go(cfg, steps, s, Act(id, BAD, 0.0, D.NoProducer, 0));
  }

  lemma ActDenied(cfg: Settings, steps: seq<Step>, s: State, id: nat, url: string, answers: seq<D.Answer>)
    returns (more: seq<Step>, s': State)
    requires Reached(cfg, steps, s) && id in s.jobs && s.jobs[id] == JobWith(cfg, url, answers)
    requires D.Legal(Single(cfg, url), answers) && D.Run(Single(cfg, url), answers).phase.AtDestLimit?
    requires !Open(cfg, s, url)
    ensures steps <= more && Reached(cfg, more, s') && OnlyJob(s, s', id, url) && KeysOf(s', url) == KeysOf(s, url)
    ensures OneCall(cfg, s, s', url) && s'.jobs[id] == JobWith(cfg, url, answers + [D.DestLimit(false)])
  {
    more, s' := Go(cfg, steps, s, Act(id, BAD, 0.0, D.NoProducer, 0));
  }

  /** A new delivery that the breaker lets through. */
  lemma Enter(cfg: Settings, steps: seq<Step>, s: State, id: nat, url: string)
    returns (more: seq<Step>, s': State)
    requires Reached(cfg, steps, s) && id !in s.jobs
    requires !CB.Answer(BreakerOf(cfg), KeysOf(s, url), s.now).1
    ensures steps <= more && Reached(cfg, more, s') && OnlyJob(s, s', id, url)
    ensures s'.calls == s.calls && s'.requests == s.requests
    ensures s'.jobs[id] == JobWith(cfg, url, ENTERED)
    ensures KeysOf(s', url) == CB.Answer(BreakerOf(cfg), KeysOf(s, url), s.now).0
  {
    LifeOf(cfg, url);
    var t;
    more, t := Go(cfg, steps, s, Spawn(id, Single(cfg, url).route));
    more, s' := ActBreaker(cfg, more, t, id, url, []);
    assert [] + [D.Breaker(false)] == ENTERED;
  }

  lemma ActGranted(cfg: Settings, steps: seq<Step>, s: State, id: nat, url: string)
    returns (more: seq<Step>, s': State)
    requires Reached(cfg, steps, s) && Open(cfg, s, url)
    requires id in s.jobs && s.jobs[id] == JobWith(cfg, url, ENTERED)
    ensures steps <= more && Reached(cfg, more, s') && OnlyJob(s, s', id, url) && KeysOf(s', url) == KeysOf(s, url)
    ensures s'.requests == s.requests && OneCall(cfg, s, s', url)
    ensures s'.jobs[id].cfg == Single(cfg, url) && s'.jobs[id].answers == GRANTED
  {
    LifeOf(cfg, url);
    more, s' := Go(cfg, steps, s, Act(id, BAD, 0.0, D.NoProducer, 0));
  }

  lemma ActSend(cfg: Settings, steps: seq<Step>, s: State, id: nat, url: string) returns (more: seq<Step>, s': State)
    requires Reached(cfg, steps, s)
    requires id in s.jobs && s.jobs[id].cfg == Single(cfg, url) && s.jobs[id].answers == GRANTED
    ensures steps <= more && Reached(cfg, more, s') && OnlyJob(s, s', id, url) && KeysOf(s', url) == KeysOf(s, url)
    ensures s'.calls == s.calls && RequestsTo(s'.requests, url) == RequestsTo(s.requests, url) + 1
    ensures s'.jobs[id] == JobWith(cfg, url, SENT)
  {
    LifeOfSent(cfg, url);
    more, s' := Go(cfg, steps, s, Act(id, BAD, 0.0, D.NoProducer, 0));
    assert s'.requests[..|s'.requests| - 1] == s.requests;
  }

  /** A new delivery that the breaker and the limiter let through is answered 400. */
  lemma SendBad(cfg: Settings, steps: seq<Step>, s: State, id: nat, url: string) returns (more: seq<Step>, s': State)
    requires Reached(cfg, steps, s) && Open(cfg, s, url) && id !in s.jobs
    requires !CB.Answer(BreakerOf(cfg), KeysOf(s, url), s.now).1
    ensures steps <= more && Reached(cfg, more, s') && OnlyJob(s, s', id, url)
    ensures s'.jobs[id] == JobWith(cfg, url, SENT)
    ensures KeysOf(s', url) == CB.Answer(BreakerOf(cfg), KeysOf(s, url), s.now).0
    ensures OneCall(cfg, s, s', url)
    ensures RequestsTo(s'.requests, url) == RequestsTo(s.requests, url) + 1
  {
    var t, u;
    more, t := Enter(cfg, steps, s, id, url);
    assert Calls(t, DestKey(url)) == Calls(s, DestKey(url));
    more, u := ActGranted(cfg, more, t, id, url);
    more, s' := ActSend(cfg, more, u, id, url);
  }

  /** The 400 is reported to the breaker, and the delivery is over. */
  lemma ReportBad(cfg: Settings, steps: seq<Step>, s: State, id: nat, url: string) returns (more: seq<Step>, s': State)
    requires Reached(cfg, steps, s)
    requires id in s.jobs && s.jobs[id] == JobWith(cfg, url, SENT)
    ensures steps <= more && Reached(cfg, more, s') && OnlyJob(s, s', id, url)
    ensures s'.calls == s.calls && s'.requests == s.requests
    ensures s'.jobs[id] == JobWith(cfg, url, REPORTED)
    ensures KeysOf(s', url) == CB.Fail(BreakerOf(cfg), KeysOf(s, url), s.now)
  {
    LifeOfSent(cfg, url);
    assert D.BaseDelay(Single(cfg, url).route, 0) == 0.0;
    more, s' := Go(cfg, steps, s, Act(id, BAD, 0.0, D.NoProducer, 0));
  }

  lemma Wait(cfg: Settings, steps: seq<Step>, s: State, us: nat) returns (more: seq<Step>, s': State)
    requires Reached(cfg, steps, s)
    ensures steps <= more && Reached(cfg, more, s') && s' == s.(now := s.now + us)
  {
    more, s' := Go(cfg, steps, s, Tick(s.now + us));
  }

  // ---------------------------------------------------------------- the destination's window

  /** No call on the key of `url` is in the current window. */
  ghost predicate Quiet(s: State, url: string) {
    var h := Calls(s, DestKey(url));
    forall i :: 0 <= i < |h| ==> h[i].server + RL.WINDOW <= s.now
  }

  lemma QuietIsOpen(cfg: Settings, s: State, url: string)
    requires Quiet(s, url) && cfg.rpm > 0
    ensures Open(cfg, s, url)
  {
    RL.NothingLive(Calls(s, DestKey(url)), s.now);
  }

  lemma QuietAfter(cfg: Settings, s: State, t: State, url: string, s': State)
    requires Quiet(s, url) && OneCall(cfg, s, t, url)
    requires Calls(s', DestKey(url)) == Calls(t, DestKey(url)) && s'.now >= s.now + RL.WINDOW
    ensures Quiet(s', url)
  {
    var h, g := Calls(s, DestKey(url)), Calls(s', DestKey(url));
    forall i | 0 <= i < |g|
      ensures g[i].server + RL.WINDOW <= s'.now
    {
      if i < |h| { assert g[i] == h[i]; }
    }
  }

  /** All calls on the key of `url` so far were made by callers whose clocks were right. */
  ghost predicate Timely(s: State, url: string) {
    var h := Calls(s, DestKey(url));
    RL.OneClock(h) && forall i :: 0 <= i < |h| ==> h[i].server <= s.now
  }

  /** Calls in the current window, and calls at one instant. */
  function InWindow(s: State, url: string): nat {
    RL.CountIn(Calls(s, DestKey(url)), s.now - RL.WINDOW + 1, s.now + 1)
  }

  function CallsAt(s: State, url: string, at: Instant): nat { RL.CountIn(Calls(s, DestKey(url)), at, at + 1) }

  lemma OpenIff(cfg: Settings, s: State, url: string)
    requires Timely(s, url)
    ensures Open(cfg, s, url) <==> InWindow(s, url) < cfg.rpm
  {
    RL.ExactRefinement(Calls(s, DestKey(url)), Asked(cfg, s, cfg.rpm, 0));
  }

  lemma ClockSnoc(h: seq<RL.Attempt>, now: Instant, a: RL.Attempt)
    requires RL.OneClock(h) && (forall i :: 0 <= i < |h| ==> h[i].server <= now) && a.stamp == a.server == now
    ensures RL.OneClock(h + [a]) && forall i :: 0 <= i < |h + [a]| ==> (h + [a])[i].server <= now
  {
  }

  lemma CallCounts(cfg: Settings, s: State, s': State, url: string)
    requires Timely(s, url) && OneCall(cfg, s, s', url) && s'.now == s.now && cfg.rpm > 0
    ensures Timely(s', url) && InWindow(s', url) == InWindow(s, url) + 1
    ensures CallsAt(s', url, s.now) == CallsAt(s, url, s.now) + 1
  {
    var h, a := Calls(s, DestKey(url)), Asked(cfg, s, cfg.rpm, 0);
    ClockSnoc(h, s.now, a);
    RL.CountSnoc(h, a, s.now - RL.WINDOW + 1, s.now + 1);
    RL.CountSnoc(h, a, s.now, s.now + 1);
  }

  lemma CallsStay(cfg: Settings, s: State, s': State, url: string, at: Instant)
    requires OneCall(cfg, s, s', url)
    ensures CallsAt(s', url, at) >= CallsAt(s, url, at)
  {
    RL.CountSnoc(Calls(s, DestKey(url)), Asked(cfg, s, cfg.rpm, 0), at, at + 1);
  }

  lemma {:induction false} NoneCounted(h: seq<RL.Attempt>, lo: int, hi: int)
    requires forall i :: 0 <= i < |h| ==> h[i].stamp < lo
    ensures RL.CountIn(h, lo, hi) == 0
  {
    if h != [] {
      NoneCounted(h[..|h| - 1], lo, hi);
    }
  }

  lemma QuietIsEmpty(s: State, url: string)
    requires Quiet(s, url) && Timely(s, url)
    ensures InWindow(s, url) == 0 && CallsAt(s, url, s.now) == 0
  {
    NoneCounted(Calls(s, DestKey(url)), s.now - RL.WINDOW + 1, s.now + 1);
    NoneCounted(Calls(s, DestKey(url)), s.now, s.now + 1);
  }

  /** Enough calls at one instant keep the window full for a minute. */
  lemma BusyIsFull(cfg: Settings, s: State, url: string, since: Instant)
    requires Timely(s, url) && CallsAt(s, url, since) >= cfg.rpm && since <= s.now < since + RL.WINDOW
    ensures InWindow(s, url) >= cfg.rpm && !Open(cfg, s, url)
  {
    RL.CountWider(Calls(s, DestKey(url)), since, since + 1, s.now - RL.WINDOW + 1, s.now + 1);
    OpenIff(cfg, s, url);
  }

  // ---------------------------------------------------------------- deliveries in rows

  /**
   How the witnesses' deliveries stand: by number, those that have reported, those that have sent,
   those that found the breaker open, those denied, and those held in front of the limiter.
   */
  function Stage(id: nat, reported: nat, sent: nat, out: nat, denied: nat): seq<D.Answer> {
    if id < reported then REPORTED
    else if id < sent then SENT
    else if id < out then SHUT_OUT
    else if id < denied then DENIED
    else ENTERED
  }

  ghost predicate Lined(cfg: Settings, s: State, url: string, reported: nat, sent: nat, out: nat, denied: nat,
                        all: nat) {
    && (forall id: nat :: id in s.jobs <==> id < all)
    && (forall id: nat :: id < all ==> s.jobs[id] == JobWith(cfg, url, Stage(id, reported, sent, out, denied)))
  }

  /** The first j of n deliveries have reported, the others have sent. */
  ghost predicate Reporting(cfg: Settings, s: State, url: string, n: nat, j: nat) {
    Lined(cfg, s, url, j, n, n, n, n)
  }

  /** One more delivery is admitted and answered 400, and a window passes. */
  lemma QueueNext(cfg: Settings, steps: seq<Step>, s: State, id: nat, url: string) returns (more: seq<Step>, s': State)
    requires Reached(cfg, steps, s) && cfg.rpm > 0 && id !in s.jobs
    requires KeysOf(s, url) == CB.FRESH && Quiet(s, url) && Timely(s, url)
    ensures Reached(cfg, more, s') && KeysOf(s', url) == CB.FRESH && Quiet(s', url) && Timely(s', url)
    ensures s'.jobs.Keys == s.jobs.Keys + {id} && s'.jobs[id] == JobWith(cfg, url, SENT)
    ensures forall o :: o in s.jobs ==> s'.jobs[o] == s.jobs[o]
  {
    var t;
    QuietIsOpen(cfg, s, url);
    more, t := SendBad(cfg, steps, s, id, url);
    CallCounts(cfg, s, t, url);
    more, s' := Wait(cfg, more, t, RL.WINDOW);
    assert Calls(s', DestKey(url)) == Calls(t, DestKey(url));
    QuietAfter(cfg, s, t, url, s');
  }

  /** n deliveries admitted a window apart, all answered 400, none of which has reported yet. */
  lemma {:induction false} QueueUp(cfg: Settings, url: string, n: nat) returns (steps: seq<Step>, s: State)
    requires cfg.rpm > 0
    ensures Reached(cfg, steps, s) && Reporting(cfg, s, url, n, 0)
    ensures KeysOf(s, url) == CB.FRESH && Quiet(s, url) && Timely(s, url)
  {
    if n == 0 {
      steps, s := [], IDLE;
      assert Possible(cfg, IDLE, []) && After(cfg, IDLE, []) == IDLE;
    } else {
      var t;
      steps, t := QueueUp(cfg, url, n - 1);
      steps, s := QueueNext(cfg, steps, t, n - 1, url);
    }
  }

  /** The breaker after j failures at one instant. */
  function FailedAt(cfg: Settings, j: nat, now: Instant): CB.Keys {
    if j == 0 then CB.FRESH
    else
      var open := j >= cfg.threshold;
      CB.Keys(if open then Some("OPEN") else None, Some(CB.Counter(j, now + CB.FAILURE_TTL)),
              if open then Some(now) else None, false)
  }

  /** The first j of the n deliveries that have sent report, all at one instant. */
  lemma {:induction false} ReportAll(cfg: Settings, steps: seq<Step>, s: State, url: string, n: nat, j: nat, all: nat)
    returns (more: seq<Step>, s': State)
    requires Reached(cfg, steps, s) && Lined(cfg, s, url, 0, n, n, n, all) && KeysOf(s, url) == CB.FRESH
    requires j <= n <= all
    ensures Reached(cfg, more, s') && Lined(cfg, s', url, j, n, n, n, all)
    ensures KeysOf(s', url) == FailedAt(cfg, j, s.now) && s'.calls == s.calls && s'.now == s.now
    decreases j
  {
    if j == 0 {
      more, s' := steps, s;
    } else {
      var t;
      more, t := ReportAll(cfg, steps, s, url, n, j - 1, all);
      more, s' := ReportBad(cfg, more, t, j - 1, url);
    }
  }

  /** Enough failures reported at one instant: the breaker is open, and everybody is done. */
  lemma OpenUp(cfg: Settings, url: string) returns (steps: seq<Step>, s: State, n: nat)
    requires cfg.rpm > 0
    ensures n == Max(cfg.threshold, 1)
    ensures Reached(cfg, steps, s) && Reporting(cfg, s, url, n, n) && Quiet(s, url)
    ensures KeysOf(s, url) == CB.Keys(Some("OPEN"), Some(CB.Counter(n, s.now + CB.FAILURE_TTL)), Some(s.now), false)
  {
    n := Max(cfg.threshold, 1);
    var t;
    steps, t := QueueUp(cfg, url, n);
    steps, s := ReportAll(cfg, steps, t, url, n, n, n);
    assert Calls(s, DestKey(url)) == Calls(t, DestKey(url));
  }

  lemma ReportedIsDone(cfg: Settings, url: string)
    ensures Finished(JobWith(cfg, url, REPORTED)) && Undenied(JobWith(cfg, url, REPORTED))
  {
    LifeOfSent(cfg, url);
  }

  /** No route has a limit of its own. */
  ghost predicate Unlimited(s: State) {
    forall id :: id in s.jobs ==> s.jobs[id].cfg.route.rpm.None?
  }

  ghost predicate EndsStuck(cfg: Settings, steps: seq<Step>, url: string)
    requires Possible(cfg, IDLE, steps)
  {
    var s := After(cfg, IDLE, steps);
    AllDone(s) && CB.Stuck(KeysOf(s, url))
  }

  function CooldownOf(cfg: Settings): nat { Max(cfg.cooldownS * SECOND, 0) }

  // ---------------------------------------------------------------- stuck through the counter's expiry

  /** The breaker opens, and two probes a counter's lifetime apart each count a single failure. */
  lemma StuckByExpiry(cfg: Settings, url: string) returns (steps: seq<Step>)
    requires cfg.rpm > 0 && cfg.threshold >= 2
    ensures Possible(cfg, IDLE, steps) && EndsStuck(cfg, steps, url)
    ensures NoDenials(After(cfg, IDLE, steps)) && Unlimited(After(cfg, IDLE, steps))
  {
    var s, n, t, u, v;
    steps, s, n := OpenUp(cfg, url);
    steps, t := Wait(cfg, steps, s, CooldownOf(cfg) + RL.WINDOW);
    assert Calls(t, DestKey(url)) == Calls(s, DestKey(url));
    steps, u := LonelyProbe(cfg, steps, t, n, url);
    steps, v := LonelyProbe(cfg, steps, u, n + 1, url);
    ReportedIsDone(cfg, url);
    forall id | id in v.jobs
      ensures v.jobs[id] == JobWith(cfg, url, REPORTED)
    {
      if id < n { assert v.jobs[id] == s.jobs[id]; }
    }
  }

  /** A probe whose failure finds the counter gone leaves the breaker as it is, and time passes. */
  lemma LonelyProbe(cfg: Settings, steps: seq<Step>, s: State, id: nat, url: string)
    returns (more: seq<Step>, s': State)
    requires Reached(cfg, steps, s) && Quiet(s, url) && cfg.rpm > 0 && cfg.threshold >= 2 && id !in s.jobs
    requires !CB.Answer(BreakerOf(cfg), KeysOf(s, url), s.now).1 && CB.CountedFailures(KeysOf(s, url), s.now) == 0
    ensures steps <= more && Reached(cfg, more, s') && Quiet(s', url)
    ensures s'.jobs.Keys == s.jobs.Keys + {id} && s'.jobs[id] == JobWith(cfg, url, REPORTED)
    ensures forall o :: o in s.jobs ==> s'.jobs[o] == s.jobs[o]
    ensures CB.CountedFailures(KeysOf(s', url), s'.now) == 0
    ensures KeysOf(s', url).state == CB.Answer(BreakerOf(cfg), KeysOf(s, url), s.now).0.state
    ensures KeysOf(s', url).halfTested == CB.Answer(BreakerOf(cfg), KeysOf(s, url), s.now).0.halfTested
  {
    var t, u;
    QuietIsOpen(cfg, s, url);
    more, t := SendBad(cfg, steps, s, id, url);
    more, u := ReportBad(cfg, more, t, id, url);
    more, s' := Wait(cfg, more, u, RL.WINDOW);
    assert Calls(s', DestKey(url)) == Calls(t, DestKey(url));
    QuietAfter(cfg, s, t, url, s');
  }

  // ---------------------------------------------------------------- stuck through the destination's window

  /** How often the window is refilled; a denied delivery asks again after a second. */
  const PERIOD: nat := 30 * SECOND

  /** One more delivery is admitted while the window is not full, and answered 400. */
  lemma FillOne(cfg: Settings, steps: seq<Step>, s: State, id: nat, url: string) returns (more: seq<Step>, s': State)
    requires Reached(cfg, steps, s) && KeysOf(s, url) == CB.FRESH && id !in s.jobs
    requires Timely(s, url) && InWindow(s, url) < cfg.rpm
    ensures Reached(cfg, more, s') && KeysOf(s', url) == CB.FRESH && s'.now == s.now
    ensures Timely(s', url) && InWindow(s', url) == InWindow(s, url) + 1
    ensures CallsAt(s', url, s.now) == CallsAt(s, url, s.now) + 1
    ensures s'.jobs.Keys == s.jobs.Keys + {id} && s'.jobs[id] == JobWith(cfg, url, SENT)
    ensures forall o :: o in s.jobs ==> s'.jobs[o] == s.jobs[o]
  {
    OpenIff(cfg, s, url);
    more, s' := SendBad(cfg, steps, s, id, url);
    CallCounts(cfg, s, s', url);
  }

  /** j more deliveries are admitted at one instant, and answered 400. */
  lemma {:induction false} FillUp(cfg: Settings, steps: seq<Step>, s: State, url: string, n: nat, j: nat)
    returns (more: seq<Step>, s': State)
    requires Reached(cfg, steps, s) && Reporting(cfg, s, url, n, 0) && KeysOf(s, url) == CB.FRESH
    requires Quiet(s, url) && Timely(s, url) && j <= cfg.rpm && cfg.rpm > 0
    ensures Reached(cfg, more, s') && Reporting(cfg, s', url, n + j, 0) && KeysOf(s', url) == CB.FRESH
    ensures s'.now == s.now && Timely(s', url) && InWindow(s', url) == j && CallsAt(s', url, s.now) == j
    decreases j
  {
    if j == 0 {
      more, s' := steps, s;
      QuietIsEmpty(s, url);
    } else {
      var t;
      more, t := FillUp(cfg, steps, s, url, n, j - 1);
      more, s' := FillOne(cfg, more, t, n + j - 1, url);
    }
  }

  /** k deliveries pass the closed breaker and are held in front of the limiter. */
  lemma {:induction false} Park(cfg: Settings, steps: seq<Step>, s: State, url: string, n: nat, k: nat)
    returns (more: seq<Step>, s': State)
    requires Reached(cfg, steps, s) && Reporting(cfg, s, url, n, 0) && KeysOf(s, url) == CB.FRESH
    ensures Reached(cfg, more, s') && Lined(cfg, s', url, 0, n, n, n, n + k) && KeysOf(s', url) == CB.FRESH
    ensures s'.now == s.now && s'.calls == s.calls
    decreases k
  {
    if k == 0 {
      more, s' := steps, s;
    } else {
      var t;
      more, t := Park(cfg, steps, s, url, n, k - 1);
      more, s' := Enter(cfg, more, t, n + k - 1, url);
    }
  }

  /** The window is full: calls enough of one instant are in it. */
  ghost predicate Busy(cfg: Settings, s: State, url: string, since: Instant) {
    Timely(s, url) && CallsAt(s, url, since) >= cfg.rpm && since <= s.now < since + RL.WINDOW
  }

  lemma BusyStays(cfg: Settings, s: State, s': State, url: string, since: Instant)
    requires Busy(cfg, s, url, since) && OneCall(cfg, s, s', url) && s'.now == s.now && cfg.rpm > 0
    ensures Busy(cfg, s', url, since) && CallsAt(s', url, s.now) == CallsAt(s, url, s.now) + 1
  {
    CallCounts(cfg, s, s', url);
    CallsStay(cfg, s, s', url, since);
  }

  /** The first j of the deliveries held from number `b` on are denied. */
  lemma {:induction false} DenyAll(cfg: Settings, steps: seq<Step>, s: State, url: string, m: nat, b: nat, j: nat,
                                   all: nat, since: Instant)
    returns (more: seq<Step>, s': State)
    requires Reached(cfg, steps, s) && Lined(cfg, s, url, m, m, b, b, all) && m <= b && b + j <= all
    requires Busy(cfg, s, url, since) && cfg.rpm > 0
    ensures Reached(cfg, more, s') && Lined(cfg, s', url, m, m, b, b + j, all)
    ensures KeysOf(s', url) == KeysOf(s, url) && s'.now == s.now
    ensures Busy(cfg, s', url, since) && CallsAt(s', url, s.now) >= j
    decreases j
  {
    if j == 0 {
      more, s' := steps, s;
    } else {
      var t;
      more, t := DenyAll(cfg, steps, s, url, m, b, j - 1, all, since);
      LifeOf(cfg, url);
      BusyIsFull(cfg, t, url, since);
      more, s' := ActDenied(cfg, more, t, b + j - 1, url, ENTERED);
      BusyStays(cfg, t, s', url, since);
    }
  }

  /** The first j of the denied deliveries ask again, and find the breaker open. */
  lemma {:induction false} AskAll(cfg: Settings, steps: seq<Step>, s: State, url: string, m: nat, b: nat, j: nat,
                                  c: nat, all: nat)
    returns (more: seq<Step>, s': State)
    requires Reached(cfg, steps, s) && Lined(cfg, s, url, m, m, b, c, all) && m <= b && b + j <= c <= all
    requires CB.Answer(BreakerOf(cfg), KeysOf(s, url), s.now) == (KeysOf(s, url), true)
    ensures Reached(cfg, more, s') && Lined(cfg, s', url, m, m, b + j, c, all)
    ensures KeysOf(s', url) == KeysOf(s, url) && s'.now == s.now && s'.calls == s.calls
    decreases j
  {
    if j == 0 {
      more, s' := steps, s;
    } else {
      var t;
      more, t := AskAll(cfg, steps, s, url, m, b, j - 1, c, all);
      LifeOfDenied(cfg, url);
      more, s' := ActBreaker(cfg, more, t, b + j - 1, url, DENIED);
    }
  }

  /** The breaker opened at `at`, nobody having won the gate. */
  predicate OpenSince(k: CB.Keys, at: Instant) {
    k.state == Some("OPEN") && k.openSince == Some(at) && !k.halfTested
  }

  /** PERIOD after it was last filled, the window is filled anew, by deliveries that are denied. */
  lemma Refill(cfg: Settings, steps: seq<Step>, s: State, url: string, m: nat, b: nat, all: nat, since: Instant,
               at: Instant)
    returns (more: seq<Step>, s': State)
    requires Reached(cfg, steps, s) && Lined(cfg, s, url, m, m, b, b, all) && m <= b && cfg.rpm > 0
             && b + cfg.rpm <= all
    requires Busy(cfg, s, url, since) && s.now <= since + SECOND
    requires OpenSince(KeysOf(s, url), at) && since + PERIOD + SECOND - at < cfg.cooldownS * SECOND
    ensures Reached(cfg, more, s') && Lined(cfg, s', url, m, m, b + cfg.rpm, b + cfg.rpm, all)
    ensures Busy(cfg, s', url, since + PERIOD) && s'.now == since + PERIOD + SECOND
    ensures OpenSince(KeysOf(s', url), at)
  {
    var t, u, v;
    more, t := Wait(cfg, steps, s, since + PERIOD - s.now);
    assert Calls(t, DestKey(url)) == Calls(s, DestKey(url));
    more, u := DenyAll(cfg, more, t, url, m, b, cfg.rpm, all, since);
    more, v := Wait(cfg, more, u, SECOND);
    assert Calls(v, DestKey(url)) == Calls(u, DestKey(url));
    more, s' := AskAll(cfg, more, v, url, m, b, cfg.rpm, b + cfg.rpm, all);
    assert Calls(s', DestKey(url)) == Calls(v, DestKey(url));
  }

  /** Deliveries needed to refill the window k times. */
  function Parked(cfg: Settings, k: nat): nat
    requires cfg.rpm > 0
  {
    if k == 0 then 0 else Parked(cfg, k - 1) + cfg.rpm
  }

  lemma {:induction false} KeepFull(cfg: Settings, steps: seq<Step>, s: State, url: string, m: nat, k: nat, all: nat,
                                    at: Instant)
    returns (more: seq<Step>, s': State)
    requires cfg.rpm > 0 && m + Parked(cfg, k) <= all
    requires Reached(cfg, steps, s) && Lined(cfg, s, url, m, m, m, m, all)
    requires Busy(cfg, s, url, at) && s.now == at && OpenSince(KeysOf(s, url), at)
    requires k > 0 ==> k * PERIOD + SECOND < cfg.cooldownS * SECOND
    ensures Reached(cfg, more, s') && Lined(cfg, s', url, m, m, m + Parked(cfg, k), m + Parked(cfg, k), all)
    ensures Busy(cfg, s', url, at + k * PERIOD) && s'.now <= at + k * PERIOD + SECOND
    ensures OpenSince(KeysOf(s', url), at)
    decreases k
  {
    if k == 0 {
      more, s' := steps, s;
    } else {
      var t;
      more, t := KeepFull(cfg, steps, s, url, m, k - 1, all, at);
      more, s' := Refill(cfg, more, t, url, m, m + Parked(cfg, k - 1), all, at + (k - 1) * PERIOD, at);
    }
  }

  /**
   One prober: let through by the cooldown, denied; a second later let through by the gate, denied;
   another second later shut out, and over.
   */
  lemma Prober(cfg: Settings, steps: seq<Step>, s: State, url: string, id: nat, since: Instant, at: Instant)
    returns (more: seq<Step>, s': State)
    requires Reached(cfg, steps, s) && id !in s.jobs && cfg.rpm > 0
    requires Busy(cfg, s, url, since) && s.now + SECOND < since + RL.WINDOW
    requires OpenSince(KeysOf(s, url), at) && s.now - at >= cfg.cooldownS * SECOND
    ensures Reached(cfg, more, s') && CB.Stuck(KeysOf(s', url))
    ensures s'.jobs.Keys == s.jobs.Keys + {id} && s'.jobs[id] == JobWith(cfg, url, LOCKED_OUT)
    ensures forall o :: o in s.jobs ==> s'.jobs[o] == s.jobs[o]
  {
    LifeOf(cfg, url);
    LifeOfDenied(cfg, url);
    LifeOfProber(cfg, url);
    var t, u;
    more, t := Enter(cfg, steps, s, id, url);
    assert Calls(t, DestKey(url)) == Calls(s, DestKey(url));
    more, u := Bounce(cfg, more, t, url, id, ENTERED, since);
    more, t := ActBreaker(cfg, more, u, id, url, DENIED);
    assert Calls(t, DestKey(url)) == Calls(u, DestKey(url));
    more, u := Bounce(cfg, more, t, url, id, PROBING, since);
    more, s' := ActBreaker(cfg, more, u, id, url, PROBED);
  }

  /** A delivery in front of the full window is denied, and a second passes. */
  lemma Bounce(cfg: Settings, steps: seq<Step>, s: State, url: string, id: nat, answers: seq<D.Answer>, since: Instant)
    returns (more: seq<Step>, s': State)
    requires Reached(cfg, steps, s) && id in s.jobs && s.jobs[id] == JobWith(cfg, url, answers) && cfg.rpm > 0
    requires D.Legal(Single(cfg, url), answers) && D.Run(Single(cfg, url), answers).phase.AtDestLimit?
    requires Busy(cfg, s, url, since)
    ensures Reached(cfg, more, s') && s'.jobs.Keys == s.jobs.Keys
    ensures s'.jobs[id] == JobWith(cfg, url, answers + [D.DestLimit(false)])
    ensures forall o :: o in s.jobs && o != id ==> s'.jobs[o] == s.jobs[o]
    ensures KeysOf(s', url) == KeysOf(s, url) && s'.now == s.now + SECOND
    ensures s.now + SECOND < since + RL.WINDOW ==> Busy(cfg, s', url, since)
  {
    var t;
    BusyIsFull(cfg, s, url, since);
    more, t := ActDenied(cfg, steps, s, id, url, answers);
    BusyStays(cfg, s, t, url, since);
    more, s' := Wait(cfg, more, t, SECOND);
    assert Calls(s', DestKey(url)) == Calls(t, DestKey(url));
  }

  lemma DeniedIsDone(cfg: Settings, url: string)
    ensures Finished(JobWith(cfg, url, SHUT_OUT)) && Finished(JobWith(cfg, url, LOCKED_OUT))
  {
    LifeOfDenied(cfg, url);
    LifeOfProber(cfg, url);
  }

  /** How often the window has to be refilled before the cooldown is over. */
  function Refills(cfg: Settings): (k: nat)
    ensures k > 0 ==> k * PERIOD + SECOND < cfg.cooldownS * SECOND
    ensures cfg.cooldownS * SECOND <= k * PERIOD + PERIOD + SECOND
  {
    var cooldown := cfg.cooldownS * SECOND;
    if cooldown > SECOND then (cooldown - SECOND - 1) / PERIOD else 0
  }

  /** The window is full, enough deliveries are held in front of it, and the breaker opens. */
  lemma SetUp(cfg: Settings, url: string, k: nat) returns (steps: seq<Step>, s: State, m: nat)
    requires cfg.rpm > 0
    ensures Reached(cfg, steps, s) && Lined(cfg, s, url, m, m, m, m, m + Parked(cfg, k))
    ensures Busy(cfg, s, url, s.now) && OpenSince(KeysOf(s, url), s.now)
  {
    var n := Max(cfg.threshold, 1);
    m := n + cfg.rpm;
    var t, u, v;
    steps, t := QueueUp(cfg, url, n);
    steps, u := FillUp(cfg, steps, t, url, n, cfg.rpm);
    steps, v := Park(cfg, steps, u, url, m, Parked(cfg, k));
    steps, s := ReportAll(cfg, steps, v, url, m, m, m + Parked(cfg, k));
    assert Calls(s, DestKey(url)) == Calls(u, DestKey(url));
  }

  /**
   The breaker opens while the destination's window is full; until the cooldown is over, deliveries
   that are denied keep it full; then one prober is denied twice.
   */
  lemma StuckByDestination(cfg: Settings, url: string) returns (steps: seq<Step>)
    requires cfg.rpm > 0
    ensures Possible(cfg, IDLE, steps) && EndsStuck(cfg, steps, url) && Unlimited(After(cfg, IDLE, steps))
  {
    var k := Refills(cfg);
    var s, m, t, u, v;
    steps, s, m := SetUp(cfg, url, k);
    var all := m + Parked(cfg, k);
    steps, t := KeepFull(cfg, steps, s, url, m, k, all, s.now);
    var due := Max(s.now + cfg.cooldownS * SECOND, t.now);
    steps, u := Wait(cfg, steps, t, due - t.now);
    assert Calls(u, DestKey(url)) == Calls(t, DestKey(url));
    steps, v := Prober(cfg, steps, u, url, all, s.now + k * PERIOD, s.now);
    ReportedIsDone(cfg, url);
    DeniedIsDone(cfg, url);
    forall id | id in v.jobs
      ensures Finished(v.jobs[id]) && v.jobs[id].cfg == Single(cfg, url)
    {
      if id != all { assert v.jobs[id] == t.jobs[id]; }
    }
  }

  // ---------------------------------------------------------------- the characterisations

  /** Some run of deliveries that all end leaves the breaker of `url` stuck. */
  ghost predicate CanEndStuck(cfg: Settings, url: string) {
    exists steps :: Possible(cfg, IDLE, steps) && EndsStuck(cfg, steps, url)
  }

  /** The same along routes none of which has a limit of its own. */
  ghost predicate CanEndStuckUnlimited(cfg: Settings, url: string) {
    exists steps :: Possible(cfg, IDLE, steps) && EndsStuck(cfg, steps, url) && Unlimited(After(cfg, IDLE, steps))
  }

  /** The same without any limiter having turned a delivery away. */
  ghost predicate CanEndStuckUndenied(cfg: Settings, url: string) {
    exists steps :: Possible(cfg, IDLE, steps) && EndsStuck(cfg, steps, url) && NoDenials(After(cfg, IDLE, steps))
  }

  lemma NeverStuckWithoutLimit(cfg: Settings, steps: seq<Step>, url: string)
    requires cfg.rpm <= 0 && Possible(cfg, IDLE, steps)
    ensures KeysOf(After(cfg, IDLE, steps), url) == CB.FRESH && After(cfg, IDLE, steps).requests == []
  {
    SilentAlways(cfg, IDLE, steps);
  }

  /**
   Whatever the threshold and the cooldown, the fleet can leave a breaker stuck exactly when the
   destination limit lets anything through; routes with limits of their own are not needed for it.
   */
  lemma StuckIff(cfg: Settings, url: string)
    ensures CanEndStuck(cfg, url) <==> cfg.rpm > 0
    ensures CanEndStuckUnlimited(cfg, url) <==> cfg.rpm > 0
  {
    if cfg.rpm > 0 {
      var steps := StuckByDestination(cfg, url);
    } else {
      forall steps | Possible(cfg, IDLE, steps)
        ensures !EndsStuck(cfg, steps, url)
      {
        NeverStuckWithoutLimit(cfg, steps, url);
      }
    }
  }

  lemma NeverStuckAtThresholdOne(cfg: Settings, steps: seq<Step>, url: string)
    requires cfg.threshold <= 1 && Possible(cfg, IDLE, steps) && NoDenials(After(cfg, IDLE, steps))
    ensures !EndsStuck(cfg, steps, url)
  {
    ProbedAlways(cfg, IDLE, steps, url);
    var s := After(cfg, IDLE, steps);
    forall id | id in s.jobs
      ensures AllDone(s) ==> !PastBreaker(s.jobs[id], url)
    {
      assert AllDone(s) ==> Finished(s.jobs[id]);
    }
  }

  /** Without denials it can, exactly when moreover one failure is not enough to open the breaker. */
  lemma StuckWithoutDenialIff(cfg: Settings, url: string)
    ensures CanEndStuckUndenied(cfg, url) <==> cfg.rpm > 0 && cfg.threshold >= 2
  {
    if cfg.rpm > 0 && cfg.threshold >= 2 {
      var steps := StuckByExpiry(cfg, url);
    } else {
      forall steps | Possible(cfg, IDLE, steps) && NoDenials(After(cfg, IDLE, steps))
        ensures !EndsStuck(cfg, steps, url)
      {
        if cfg.rpm <= 0 {
          NeverStuckWithoutLimit(cfg, steps, url);
        } else {
          NeverStuckAtThresholdOne(cfg, steps, url);
        }
      }
    }
  }

  // ---------------------------------------------------------------- recovery with real requests

  lemma {:induction false} Tail(cfg: Settings, s: State, a: seq<Step>, b: seq<Step>)
    requires Possible(cfg, s, a + b)
    ensures Possible(cfg, s, a) && Possible(cfg, After(cfg, s, a), b)
    ensures After(cfg, s, a + b) == After(cfg, After(cfg, s, a), b)
    decreases |a|
  {
    if a == [] {
      assert a + b == b;
    } else {
      assert (a + b)[1..] == a[1..] + b;
      Tail(cfg, Apply(cfg, s, a[0]), a[1..], b);
    }
  }

  ghost predicate SentMore(cfg: Settings, steps: seq<Step>, more: seq<Step>, url: string)
    requires Possible(cfg, IDLE, steps)
  {
    && Possible(cfg, IDLE, steps + more)
    && RequestsTo(After(cfg, IDLE, steps + more).requests, url) > RequestsTo(After(cfg, IDLE, steps).requests, url)
  }

  /** The run can go on so that the destination is sent another request. */
  ghost predicate CanSendAgain(cfg: Settings, steps: seq<Step>, url: string)
    requires Possible(cfg, IDLE, steps)
  {
    exists more :: SentMore(cfg, steps, more, url)
  }

  lemma NotAgain(cfg: Settings, steps: seq<Step>, more: seq<Step>, url: string)
    requires Possible(cfg, IDLE, steps + more) && Possible(cfg, IDLE, steps) && AllDone(After(cfg, IDLE, steps))
    requires cfg.rpm <= 0 || CB.Stuck(KeysOf(After(cfg, IDLE, steps), url))
    ensures RequestsTo(After(cfg, IDLE, steps + more).requests, url)
            == RequestsTo(After(cfg, IDLE, steps).requests, url)
  {
    var s := After(cfg, IDLE, steps);
    if cfg.rpm <= 0 {
      NeverStuckWithoutLimit(cfg, steps, url);
      NeverStuckWithoutLimit(cfg, steps + more, url);
    } else {
      Tail(cfg, IDLE, steps, more);
      forall id | id in s.jobs
        ensures Waiting(s.jobs[id])
      {
        assert Finished(s.jobs[id]);
      }
      ShutForGood(cfg, s, more, url);
    }
  }

  lemma Again(cfg: Settings, steps: seq<Step>, url: string) returns (more: seq<Step>)
    requires Possible(cfg, IDLE, steps) && cfg.rpm > 0 && !CB.Stuck(KeysOf(After(cfg, IDLE, steps), url))
    ensures SentMore(cfg, steps, more, url)
  {
    var s := After(cfg, IDLE, steps);
    InvAlways(cfg, IDLE, steps);
    assert HistoryOk(cfg, s, Calls(s, DestKey(url)));
    var k := KeysOf(s, url);
    var since := if k.openSince.Some? then k.openSince.value else 0;
    var run, t, u;
    run, t := Wait(cfg, steps, s, since + CooldownOf(cfg) + RL.WINDOW);
    assert Calls(t, DestKey(url)) == Calls(s, DestKey(url));
    QuietIsOpen(cfg, t, url);
    var id := UnusedId(s.jobs.Keys);
    run, u := SendBad(cfg, run, t, id, url);
    more := run[|steps|..];
    assert steps + more == run;
  }

  lemma {:induction false} UnusedId(ids: set<nat>) returns (id: nat)
    ensures forall i :: i in ids ==> i < id
    decreases |ids|
  {
    if ids == {} {
      id := 0;
    } else {
      var i :| i in ids;
      var rest := UnusedId(ids - {i});
      assert forall k :: k in ids <==> k == i || k in ids - {i};
      id := if rest <= i then i + 1 else rest;
    }
  }

  lemma NeverAgain(cfg: Settings, steps: seq<Step>, url: string)
    requires Possible(cfg, IDLE, steps) && AllDone(After(cfg, IDLE, steps))
    requires cfg.rpm <= 0 || CB.Stuck(KeysOf(After(cfg, IDLE, steps), url))
    ensures !CanSendAgain(cfg, steps, url)
  {
    if CanSendAgain(cfg, steps, url) {
      var more :| SentMore(cfg, steps, more, url);
      NotAgain(cfg, steps, more, url);
    }
  }

  /**
   When every delivery has ended, the destination can ever be sent another request exactly when the
   destination limit lets anything through and the breaker is not stuck.
   */
  lemma SendsAgainIff(cfg: Settings, steps: seq<Step>, s: State, url: string)
    requires Reached(cfg, steps, s) && AllDone(s)
    ensures CanSendAgain(cfg, steps, url) <==> cfg.rpm > 0 && !CB.Stuck(KeysOf(s, url))
  {
    if cfg.rpm > 0 && !CB.Stuck(KeysOf(s, url)) {
      var more := Again(cfg, steps, url);
    } else {
      NeverAgain(cfg, steps, url);
    }
  }
}
