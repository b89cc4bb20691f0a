/**
 The limits of the routes in a fleet: which answer of which delivery each limiter call gave, which
 delivery sent each request, and the bound that a route's own limit puts on the requests along it.
 */
module FleetRoutes {
  import opened Common
  import RL = RateLimiter
  import D = Delivery
  import opened Fleet

  /** Answer number `at` of the delivery `job`. */
  datatype Use = Use(job: nat, at: nat)

  /** The answer that each limiter call gave, key by key, and the answer that each request got. */
  datatype Book = Book(askers: map<string, seq<Use>>, senders: seq<Use>)

  const EMPTY := Book(map[], [])

  function Askers(b: Book, key: string): seq<Use> {
    if key in b.askers then b.askers[key] else []
  }

  function Asks(b: Book, key: string, u: Use): Book {
    b.(askers := b.askers[key := Askers(b, key) + [u]])
  }

  /** What a step adds to the book. */
  function Noted(s: State, b: Book, step: Step): Book
    requires Enabled(s, step)
  {
    if !step.Act? then b
    else
      var j := s.jobs[step.id];
      var u := Use(step.id, |j.answers|);
      match At(j).phase
      case AtRouteLimit => Asks(b, RouteKey(j.cfg.route.id), u)
      case AtDestLimit => Asks(b, DestKey(j.cfg.route.url), u)
      case AtSend => b.(senders := b.senders + [u])
      case _ => b
  }

  function Notes(cfg: Settings, s: State, b: Book, steps: seq<Step>): Book
    requires Possible(cfg, s, steps)
    decreases |steps|
  {
    if steps == [] then b else Notes(cfg, Apply(cfg, s, steps[0]), Noted(s, b, steps[0]), steps[1..])
  }

  // ---------------------------------------------------------------- calls and answers

  /** Call `t` on `key` was made for answer `u`, with the limit that is due, and `u` is its verdict. */
  ghost predicate AskedBy(cfg: Settings, s: State, key: string, t: nat, u: Use) {
    && t < |Calls(s, key)| && u.job in s.jobs && u.at < |s.jobs[u.job].answers|
    && var route, a := s.jobs[u.job].cfg.route, s.jobs[u.job].answers[u.at];
    || (&& key == RouteKey(route.id) && route.rpm == Some(Calls(s, key)[t].limit)
        && a == D.RouteLimit(RL.Allowed(Calls(s, key), t)))
    || (&& key == DestKey(route.url) && cfg.rpm == Calls(s, key)[t].limit
        && a == D.DestLimit(RL.Allowed(Calls(s, key), t)))
  }

  /** Every call on the key has its answer, and no two calls have the same. */
  ghost predicate KeyOk(cfg: Settings, s: State, b: Book, key: string) {
    var asked := Askers(b, key);
    && |asked| == |Calls(s, key)|
    && (forall t: nat :: t < |asked| ==> AskedBy(cfg, s, key, t, asked[t]))
    && (forall t: nat, v: nat :: t < v < |asked| ==> asked[t] != asked[v])
  }

  /** If answer `i` is a limiter's, some call gave it. */
  ghost predicate Listed(b: Book, job: nat, j: Job, i: nat) {
    i < |j.answers| ==>
      && (j.answers[i].RouteLimit? ==> Use(job, i) in Askers(b, RouteKey(j.cfg.route.id)))
      && (j.answers[i].DestLimit? ==> Use(job, i) in Askers(b, DestKey(j.cfg.route.url)))
  }

  ghost predicate SentBy(s: State, k: nat, u: Use) {
    && k < |s.requests| && u.job in s.jobs && u.at < |s.jobs[u.job].answers|
    && s.jobs[u.job].answers[u.at].Http? && s.jobs[u.job].cfg.route.url == s.requests[k].url
  }

  ghost predicate SendersOk(s: State, b: Book) {
    && |b.senders| == |s.requests|
    && (forall k: nat :: k < |b.senders| ==> SentBy(s, k, b.senders[k]))
    && (forall k: nat, l: nat :: k < l < |b.senders| ==> b.senders[k] != b.senders[l])
  }

  ghost predicate BookOk(cfg: Settings, s: State, b: Book) {
    && (forall key :: KeyOk(cfg, s, b, key))
    && (forall id: nat, i: nat :: id in s.jobs ==> Listed(b, id, s.jobs[id], i))
    && SendersOk(s, b)
  }

  /** Deliveries only ever get more answers, and keys more calls. */
  ghost predicate Grown(s: State, s': State) {
    && (forall id :: id in s.jobs ==>
          id in s'.jobs && s'.jobs[id].cfg == s.jobs[id].cfg && s.jobs[id].answers <= s'.jobs[id].answers)
    && (forall key :: Calls(s, key) <= Calls(s', key))
    && s.requests <= s'.requests
  }

  lemma StepGrows(cfg: Settings, s: State, step: Step)
    requires Enabled(s, step)
    ensures Grown(s, Apply(cfg, s, step))
  {
    if step.Act? {
      ActedJobs(cfg, s, step);
      ActedCalls(cfg, s, step);
    }
  }

  lemma ActedCalls(cfg: Settings, s: State, step: Step)
    requires step.Act? && Enabled(s, step)
    ensures var s' := Apply(cfg, s, step);
            s.requests <= s'.requests && forall key :: Calls(s, key) <= Calls(s', key)
  {
  }

  lemma AskedStays(cfg: Settings, s: State, s': State, key: string, t: nat, u: Use)
    requires AskedBy(cfg, s, key, t, u) && Grown(s, s')
    ensures AskedBy(cfg, s', key, t, u)
  {
    assert Calls(s', key)[..t] == Calls(s, key)[..t];
  }

  /** Nothing was asked on this key. */
  lemma KeyStays(cfg: Settings, s: State, s': State, b: Book, b': Book, key: string)
    requires KeyOk(cfg, s, b, key) && Grown(s, s')
    requires Calls(s', key) == Calls(s, key) && Askers(b', key) == Askers(b, key)
    ensures KeyOk(cfg, s', b', key)
  {
    forall t: nat | t < |Askers(b, key)|
      ensures AskedBy(cfg, s', key, t, Askers(b', key)[t])
    {
      AskedStays(cfg, s, s', key, t, Askers(b, key)[t]);
    }
  }

  /** One call more on this key, with an answer of its own. */
  lemma KeyGrows(cfg: Settings, s: State, s': State, b: Book, key: string, u: Use)
    requires KeyOk(cfg, s, b, key) && Grown(s, s')
    requires |Calls(s', key)| == |Calls(s, key)| + 1 && AskedBy(cfg, s', key, |Calls(s, key)|, u)
    requires u.job in s.jobs && u.at == |s.jobs[u.job].answers|
    ensures KeyOk(cfg, s', Asks(b, key, u), key)
  {
    var asked, more := Askers(b, key), Askers(Asks(b, key, u), key);
    var n := |asked|;
    assert |more| == n + 1 && more[n] == u && forall t: nat :: t < n ==> more[t] == asked[t];
    forall t: nat | t < n
      ensures AskedBy(cfg, s', key, t, more[t]) && more[t] != u
    {
      assert AskedBy(cfg, s, key, t, asked[t]);
      AskedStays(cfg, s, s', key, t, asked[t]);
    }
    forall t: nat, v: nat | t < v < |more|
      ensures more[t] != more[v]
    {
      if v < n { assert asked[t] != asked[v]; }
    }
  }

  /** What a limiter call of a delivery leaves behind. */
  lemma CallIsAnswer(cfg: Settings, s: State, step: Step, key: string)
    requires Inv(cfg, s) && step.Act? && Enabled(s, step)
    requires var j := s.jobs[step.id];
             || (At(j).phase.AtRouteLimit? && key == RouteKey(j.cfg.route.id))
             || (At(j).phase.AtDestLimit? && key == DestKey(j.cfg.route.url))
    ensures var s', j := Apply(cfg, s, step), s.jobs[step.id];
            && |Calls(s', key)| == |Calls(s, key)| + 1
            && AskedBy(cfg, s', key, |Calls(s, key)|, Use(step.id, |j.answers|))
            && forall other :: other != key ==> Calls(s', other) == Calls(s, other)
  {
    var s', j, n := Apply(cfg, s, step), s.jobs[step.id], |Calls(s, key)|;
    assert Calls(s', key)[..n] == Calls(s, key);
    assert s'.jobs[step.id].answers[|j.answers|] == AnswerTo(cfg, s, step);
    assert j.answers[..|j.answers|] == j.answers;
    D.CameFrom(j.cfg, j.answers, |j.answers|);
  }

  /** One answer more, which is a limiter's and listed, or not a limiter's. */
  lemma ListedGrows(b: Book, b': Book, job: nat, j: Job, j': Job, a: D.Answer, i: nat)
    requires Listed(b, job, j, i) && forall key, u :: u in Askers(b, key) ==> u in Askers(b', key)
    requires j'.cfg == j.cfg && j'.answers == j.answers + [a]
    requires a.RouteLimit? ==> Use(job, |j.answers|) in Askers(b', RouteKey(j.cfg.route.id))
    requires a.DestLimit? ==> Use(job, |j.answers|) in Askers(b', DestKey(j.cfg.route.url))
    ensures Listed(b', job, j', i)
  {
  }

  lemma ListedStays(b: Book, b': Book, job: nat, j: Job, i: nat)
    requires Listed(b, job, j, i) && forall key, u :: u in Askers(b, key) ==> u in Askers(b', key)
    ensures Listed(b', job, j, i)
  {
  }

  lemma NotedKeys(cfg: Settings, s: State, b: Book, step: Step, key: string)
    requires Inv(cfg, s) && Enabled(s, step) && KeyOk(cfg, s, b, key)
    ensures KeyOk(cfg, Apply(cfg, s, step), Noted(s, b, step), key)
  {
    var s', b' := Apply(cfg, s, step), Noted(s, b, step);
    StepGrows(cfg, s, step);
    if step.Act? && (At(s.jobs[step.id]).phase.AtRouteLimit? || At(s.jobs[step.id]).phase.AtDestLimit?) {
      var j := s.jobs[step.id];
      var asked := if At(j).phase.AtRouteLimit? then RouteKey(j.cfg.route.id) else DestKey(j.cfg.route.url);
      CallIsAnswer(cfg, s, step, asked);
      if key == asked {
        KeyGrows(cfg, s, s', b, key, Use(step.id, |j.answers|));
      } else {
        KeyStays(cfg, s, s', b, b', key);
      }
    } else {
      KeyStays(cfg, s, s', b, b', key);
    }
  }

  lemma NotedKeeps(s: State, b: Book, step: Step)
    requires Enabled(s, step)
    ensures forall key, u :: u in Askers(b, key) ==> u in Askers(Noted(s, b, step), key)
  {
  }

  /** The answer a step gives, and what becomes of the jobs. */
  lemma ActedJobs(cfg: Settings, s: State, step: Step)
    requires step.Act? && Enabled(s, step)
    ensures var s', j := Apply(cfg, s, step), s.jobs[step.id];
            && s'.jobs.Keys == s.jobs.Keys
            && (forall id :: id in s.jobs && id != step.id ==> s'.jobs[id] == s.jobs[id])
            && s'.jobs[step.id].cfg == j.cfg && s'.jobs[step.id].answers == j.answers + [AnswerTo(cfg, s, step)]
            && D.Fits(j.cfg, At(j), AnswerTo(cfg, s, step))
  {
  }

  lemma NotedListed(cfg: Settings, s: State, b: Book, step: Step, id: nat, i: nat)
    requires Enabled(s, step) && id in Apply(cfg, s, step).jobs
    requires id in s.jobs ==> Listed(b, id, s.jobs[id], i)
    ensures Listed(Noted(s, b, step), id, Apply(cfg, s, step).jobs[id], i)
  {
    var s', b' := Apply(cfg, s, step), Noted(s, b, step);
    NotedKeeps(s, b, step);
    if step.Act? {
      ActedJobs(cfg, s, step);
      if id == step.id {
        ListedGrows(b, b', id, s.jobs[id], s'.jobs[id], AnswerTo(cfg, s, step), i);
      } else {
        ListedStays(b, b', id, s.jobs[id], i);
      }
    } else if id in s.jobs {
      ListedStays(b, b', id, s.jobs[id], i);
    }
  }

  lemma SentStays(s: State, s': State, k: nat, u: Use)
    requires SentBy(s, k, u) && Grown(s, s')
    ensures SentBy(s', k, u)
  {
  }

  lemma NotedSenders(cfg: Settings, s: State, b: Book, step: Step)
    requires Enabled(s, step) && SendersOk(s, b)
    ensures SendersOk(Apply(cfg, s, step), Noted(s, b, step))
  {
    var s', b' := Apply(cfg, s, step), Noted(s, b, step);
    StepGrows(cfg, s, step);
    forall k: nat | k < |b.senders|
      ensures SentBy(s', k, b.senders[k])
      ensures step.Act? ==> b.senders[k] != Use(step.id, |s.jobs[step.id].answers|)
    {
      SentStays(s, s', k, b.senders[k]);
    }
  }

  lemma BookStep(cfg: Settings, s: State, b: Book, step: Step)
    requires Inv(cfg, s) && BookOk(cfg, s, b) && Enabled(s, step)
    ensures BookOk(cfg, Apply(cfg, s, step), Noted(s, b, step))
  {
    var s', b' := Apply(cfg, s, step), Noted(s, b, step);
    forall key
      ensures KeyOk(cfg, s', b', key)
    {
      NotedKeys(cfg, s, b, step, key);
    }
    forall id: nat, i: nat | id in s'.jobs
      ensures Listed(b', id, s'.jobs[id], i)
    {
      NotedListed(cfg, s, b, step, id, i);
    }
    NotedSenders(cfg, s, b, step);
  }

  lemma InvStep(cfg: Settings, s: State, step: Step)
    requires Inv(cfg, s) && Enabled(s, step)
    ensures Inv(cfg, Apply(cfg, s, step))
  {
    if step.Act? {
      ActKeeps(cfg, s, step);
    } else {
      QuietKeeps(cfg, s, step);
    }
  }

  lemma {:induction false} BookAlways(cfg: Settings, s: State, b: Book, steps: seq<Step>)
    requires Inv(cfg, s) && BookOk(cfg, s, b) && Possible(cfg, s, steps)
    ensures Inv(cfg, After(cfg, s, steps)) && BookOk(cfg, After(cfg, s, steps), Notes(cfg, s, b, steps))
    decreases |steps|
  {
    if steps != [] {
      BookStep(cfg, s, b, steps[0]);
      InvStep(cfg, s, steps[0]);
      BookAlways(cfg, Apply(cfg, s, steps[0]), Noted(s, b, steps[0]), steps[1..]);
    }
  }

  // ---------------------------------------------------------------- the promises

  /** The book of a run from the start. */
  function BookOf(cfg: Settings, steps: seq<Step>): Book
    requires Possible(cfg, IDLE, steps)
  {
    Notes(cfg, IDLE, EMPTY, steps)
  }

  lemma BookHolds(cfg: Settings, steps: seq<Step>)
    requires Possible(cfg, IDLE, steps)
    ensures Inv(cfg, After(cfg, IDLE, steps)) && BookOk(cfg, After(cfg, IDLE, steps), BookOf(cfg, steps))
  {
    BookAlways(cfg, IDLE, EMPTY, steps);
  }

  lemma RouteKeysDiffer(id: string, other: string)
    ensures RouteKey(id) == RouteKey(other) ==> id == other
  {
    assert RouteKey(id)[6..] == id && RouteKey(other)[6..] == other;
  }

  /**
   Over every run, the limiter's calls on a key and the answers of the deliveries that ask on it
   correspond one to one: each call's verdict under the limit in force is the answer given, and each
   answer is the verdict of exactly one call.
   */
  lemma AnswersAreVerdicts(cfg: Settings, steps: seq<Step>, key: string)
    requires Possible(cfg, IDLE, steps)
    ensures var s, asked := After(cfg, IDLE, steps), Askers(BookOf(cfg, steps), key);
            && |asked| == |Calls(s, key)|
            && (forall t: nat :: t < |asked| ==> AskedBy(cfg, s, key, t, asked[t]))
            && (forall t: nat, v: nat :: t < v < |asked| ==> asked[t] != asked[v])
            && (forall id: nat, i: nat :: id in s.jobs && i < |s.jobs[id].answers| ==>
                  var route, a := s.jobs[id].cfg.route, s.jobs[id].answers[i];
                  || (a.RouteLimit? && key == RouteKey(route.id)) || (a.DestLimit? && key == DestKey(route.url)) ==>
                       Use(id, i) in asked)
  {
    BookHolds(cfg, steps);
    var s, b := After(cfg, IDLE, steps), BookOf(cfg, steps);
    assert KeyOk(cfg, s, b, key);
    forall id: nat, i: nat | id in s.jobs && i < |s.jobs[id].answers|
      ensures var route, a := s.jobs[id].cfg.route, s.jobs[id].answers[i];
              || (a.RouteLimit? && key == RouteKey(route.id)) || (a.DestLimit? && key == DestKey(route.url)) ==>
                   Use(id, i) in Askers(b, key)
    {
      assert Listed(b, id, s.jobs[id], i);
    }
  }

  /** Request `k` is one along a route with this id whose own limit let it through, by call `t` on the route's key. */
  ghost predicate PassedBy(s: State, b: Book, k: nat, id: string, t: nat) {
    && k < |b.senders| && b.senders[k].at >= 2 && t < |Askers(b, RouteKey(id))| == |Calls(s, RouteKey(id))|
    && Askers(b, RouteKey(id))[t] == Use(b.senders[k].job, b.senders[k].at - 2)
  }

  /** Every request along a route with a limit of its own was let through by a call on the route's key. */
  lemma RequestPassedRoute(cfg: Settings, steps: seq<Step>, k: nat) returns (t: nat)
    requires Possible(cfg, IDLE, steps)
    requires k < |After(cfg, IDLE, steps).requests|
    ensures var s, b := After(cfg, IDLE, steps), BookOf(cfg, steps);
            && k < |b.senders| && SentBy(s, k, b.senders[k])
            && var route := s.jobs[b.senders[k].job].cfg.route;
            route.rpm.Some? ==> PassedBy(s, b, k, route.id, t) && Granted(Calls(s, RouteKey(route.id)), t)
  {
    BookHolds(cfg, steps);
    var s, b := After(cfg, IDLE, steps), BookOf(cfg, steps);
    var u := b.senders[k];
    assert SentBy(s, k, u);
    var j := s.jobs[u.job];
    assert JobOk(s, j);
    D.RequestIsAdmitted(j.cfg, j.answers, u.at);
    t := 0;
    if j.cfg.route.rpm.Some? {
      var key := RouteKey(j.cfg.route.id);
      assert Listed(b, u.job, j, u.at - 2) && KeyOk(cfg, s, b, key);
      t :| t < |Askers(b, key)| && Askers(b, key)[t] == Use(u.job, u.at - 2);
      assert AskedBy(cfg, s, key, t, Askers(b, key)[t]);
    }
  }

  /** Request `k` was let through along a route with this id at a time in [lo, hi). */
  ghost predicate PassedIn(s: State, b: Book, k: nat, id: string, lo: int, hi: int) {
    exists t: nat :: PassedBy(s, b, k, id, t) && RL.In(Calls(s, RouteKey(id))[t].stamp, lo, hi)
  }

  /** A call on a route's key that let a request through was granted, under the limit of such a route. */
  lemma PassIsGranted(cfg: Settings, s: State, b: Book, k: nat, id: string, t: nat)
    requires Inv(cfg, s) && BookOk(cfg, s, b) && PassedBy(s, b, k, id, t)
    ensures Granted(Calls(s, RouteKey(id)), t)
  {
    var u := b.senders[k];
    assert KeyOk(cfg, s, b, RouteKey(id)) && AskedBy(cfg, s, RouteKey(id), t, Use(u.job, u.at - 2));
    assert SentBy(s, k, u) && JobOk(s, s.jobs[u.job]);
    D.RequestIsAdmitted(s.jobs[u.job].cfg, s.jobs[u.job].answers, u.at);
    KeysDiffer(id, s.jobs[u.job].cfg.route.url, "");
  }

  lemma {:induction false} Enumerate(ks: set<nat>) returns (ps: seq<nat>)
    ensures |ps| == |ks| && forall i :: 0 <= i < |ps| ==> ps[i] in ks
    ensures forall i, j :: 0 <= i < j < |ps| ==> ps[i] != ps[j]
    decreases ks
  {
    ps := [];
    if ks != {} {
      var k :| k in ks;
      var rest := Enumerate(ks - {k});
      ps := rest + [k];
    }
  }

  /** A call for each of these requests. */
  lemma {:induction false} PassesOf(s: State, b: Book, ps: seq<nat>, id: string, lo: int, hi: int)
    returns (ts: seq<nat>)
    requires forall i :: 0 <= i < |ps| ==> PassedIn(s, b, ps[i], id, lo, hi)
    ensures |ts| == |ps|
    ensures forall i :: 0 <= i < |ts| ==>
              PassedBy(s, b, ps[i], id, ts[i]) && RL.In(Calls(s, RouteKey(id))[ts[i]].stamp, lo, hi)
  {
    ts := [];
    if ps != [] {
      var n := |ps| - 1;
      var rest := PassesOf(s, b, ps[..n], id, lo, hi);
      assert PassedIn(s, b, ps[n], id, lo, hi);
      var t: nat :| PassedBy(s, b, ps[n], id, t) && RL.In(Calls(s, RouteKey(id))[t].stamp, lo, hi);
      ts := rest + [t];
    }
  }

  /** Different requests were let through by different calls. */
  lemma PassesDiffer(s: State, b: Book, k: nat, l: nat, id: string, t: nat, v: nat)
    requires SendersOk(s, b) && k != l && PassedBy(s, b, k, id, t) && PassedBy(s, b, l, id, v)
    ensures t != v
  {
    assert b.senders[k] != b.senders[l];
  }

  /** The requests let through in a window are no more than the calls granted in it. */
  lemma PassesBounded(cfg: Settings, s: State, b: Book, ks: set<nat>, id: string, lo: int, hi: int)
    requires Inv(cfg, s) && BookOk(cfg, s, b)
    requires forall k :: k in ks ==> PassedIn(s, b, k, id, lo, hi)
    ensures |ks| <= RL.AllowedIn(Calls(s, RouteKey(id)), lo, hi)
  {
    var ps := Enumerate(ks);
    var ts := PassesOf(s, b, ps, id, lo, hi);
    forall i | 0 <= i < |ts|
      ensures Granted(Calls(s, RouteKey(id)), ts[i])
    {
      PassIsGranted(cfg, s, b, ps[i], id, ts[i]);
    }
    forall i, j | 0 <= i < j < |ts|
      ensures ts[i] != ts[j]
    {
      PassesDiffer(s, b, ps[i], ps[j], id, ts[i], ts[j]);
    }
    DistinctGrants(ts, Calls(s, RouteKey(id)), lo, hi);
  }

  /** No delivery along a route with this id has a route limit above r. */
  ghost predicate LimitAtMost(s: State, id: string, r: int) {
    forall n :: n in s.jobs && s.jobs[n].cfg.route.id == id && s.jobs[n].cfg.route.rpm.Some? ==>
      s.jobs[n].cfg.route.rpm.value <= r
  }

  lemma RouteLimits(cfg: Settings, s: State, b: Book, id: string, r: int)
    requires BookOk(cfg, s, b)
    requires LimitAtMost(s, id, r)
    ensures forall t: nat :: t < |Calls(s, RouteKey(id))| ==> Calls(s, RouteKey(id))[t].limit <= r
  {
    var key := RouteKey(id);
    assert KeyOk(cfg, s, b, key);
    forall t: nat | t < |Calls(s, key)|
      ensures Calls(s, key)[t].limit <= r
    {
      var u := Askers(b, key)[t];
      assert AskedBy(cfg, s, key, t, u);
      RouteKeysDiffer(id, s.jobs[u.job].cfg.route.id);
      KeysDiffer(id, s.jobs[u.job].cfg.route.url, "");
    }
  }

  lemma RouteGrants(cfg: Settings, s: State, b: Book, id: string, r: int, lo: int, hi: int)
    requires HistoriesOk(cfg, s) && hi - lo <= RL.WINDOW - cfg.skew
    requires forall t: nat :: t < |Calls(s, RouteKey(id))| ==> Calls(s, RouteKey(id))[t].limit <= r
    ensures RL.AllowedIn(Calls(s, RouteKey(id)), lo, hi) <= Max(r, 0)
  {
    var h := Calls(s, RouteKey(id));
    assert RL.Skewed(h, cfg.skew) by {
      assert RouteKey(id) in s.calls ==> HistoryOk(cfg, s, s.calls[RouteKey(id)]);
    }
    RL.AllowedBound(h, cfg.skew, lo, hi, Max(r, 0));
  }

  /** The requests along routes with this id that were let through in [lo, hi). */
  ghost function RequestsIn(s: State, b: Book, id: string, lo: int, hi: int): set<nat> {
    set k: nat | k < |s.requests| && PassedIn(s, b, k, id, lo, hi)
  }

  lemma RequestsBounded(cfg: Settings, s: State, b: Book, id: string, r: int, lo: int, hi: int)
    requires Inv(cfg, s) && BookOk(cfg, s, b) && LimitAtMost(s, id, r) && hi - lo <= RL.WINDOW - cfg.skew
    ensures |RequestsIn(s, b, id, lo, hi)| <= Max(r, 0)
  {
    PassesBounded(cfg, s, b, RequestsIn(s, b, id, lo, hi), id, lo, hi);
    RouteLimits(cfg, s, b, id, r);
    RouteGrants(cfg, s, b, id, r, lo, hi);
  }

  /**
   The route throttle: in any interleaving, if no delivery's route with this id has a limit above r,
   the requests along it that its own limit let through in a window of at most 60 seconds, less the
   clock skew, are at most max(r, 0).
   */
  lemma RouteThrottle(cfg: Settings, steps: seq<Step>, id: string, r: int, lo: int, hi: int)
    requires Possible(cfg, IDLE, steps) && hi - lo <= 60 * SECOND - cfg.skew
    requires LimitAtMost(After(cfg, IDLE, steps), id, r)
    ensures |RequestsIn(After(cfg, IDLE, steps), BookOf(cfg, steps), id, lo, hi)| <= Max(r, 0)
  {
    BookHolds(cfg, steps);
    RequestsBounded(cfg, After(cfg, IDLE, steps), BookOf(cfg, steps), id, r, lo, hi);
  }
}
